/** `receive_file` as the loop it is, proved to do exactly what the steps of `Receiver` say. */
module ReceiveFile {
  import opened Words
  import opened Wire
  import opened Frames
  import opened Paths
  import opened Bits
  import opened Checksum
  import opened TransferCodec
  import opened PartialStore
  import opened Receiver

  /** `read_partial_prefix`: feeds the saved bytes to the checksum, whatever sizes the reads come in. */
  method ReadPartialPrefix(content: Bytes, size: nat, calls: seq<ReadCall>, checksum: Crc32) returns (ok: bool)
    requires size <= |content|
    modifies checksum
    ensures ok <==> ReadsBack(size, calls)
    ensures ok ==> checksum.state == Feed(old(checksum.state), content[..size])
  {
    hide Feed, Taken;
    FeedNothing(checksum.state, content);
    var remaining, position, left := size, 0, calls;
    while remaining != 0
      invariant 0 <= position && 0 <= remaining && position + remaining == size
      invariant ReadsBack(size, calls) <==> ReadsBack(remaining, left)
      invariant checksum.state == Feed(old(checksum.state), content[..position])
      decreases |left|, remaining
    {
      var call := if left != [] then left[0] else Delivered(remaining);
      left := if left != [] then left[1..] else [];
      if call.Retry? {
        continue;
      }
      if call.ReadFailed? || call.count == 0 {
        return false;
      }
      var count := Taken(remaining, call.count);
      FeedAppend(old(checksum.state), content[..position], content[position..position + count]);
      assert content[..position] + content[position..position + count] == content[..position + count];
      checksum.Update(content[position..position + count]);
      position, remaining := position + count, remaining - count;
    }
    return true;
  }

  lemma FeedNothing(s: Word, content: Bytes)
    ensures Feed(s, content[..0]) == s
  {
  }

  // ---------------------------------------------------------------------------
  // A whole session as a fold of its turns.
  // ---------------------------------------------------------------------------

  /** One received frame (or failure) together with how the system calls it leads to turn out. */
  datatype Round = Round(input: Incoming, os: Os)

  /** When the script ends, the peer is gone. */
  function RoundAt(rounds: seq<Round>): Round
  {
    if rounds == [] then Round(Failed(PeerGone), HEALTHY) else rounds[0]
  }

  function FollowedBy(first: Step, rest: Step): Step
  {
    Step(rest.disk, rest.phase, first.sent + rest.sent, first.commits + rest.commits)
  }

  ghost function Turns(disk: Disk, s: Session, rounds: seq<Round>, l: TransferLimits): (r: Step)
    requires s.meta in disk.parts
    decreases |rounds|
  {
    var now := RoundAt(rounds);
    var r := Turn(disk, s, now.input, l, now.os);
    if r.phase.Closed? || rounds == [] then r else
      TurnStays(disk, s, now.input, l, now.os);
      FollowedBy(r, Turns(r.disk, r.phase.session, rounds[1..], l))
  }

  /** The transfer stays about the same part, and the part stays there. */
  lemma TurnStays(disk: Disk, s: Session, input: Incoming, l: TransferLimits, os: Os)
    requires s.meta in disk.parts
    ensures var r := Turn(disk, s, input, l, os);
      r.phase.Open? ==> r.phase.session.meta == s.meta && r.phase.session.id == s.id && s.meta in r.disk.parts
  {
    hide Judge, Feed, WriteAt, PutUint;
  }

  ghost function WholeSession(disk: Disk, request: Frame, l: TransferLimits, os: OpenOs, rounds: seq<Round>): (r: Step)
  {
    var r := Begin(disk, request, l, os);
    if r.phase.Closed? then r else
      BeginStays(disk, request, l, os);
      FollowedBy(r, Turns(r.disk, r.phase.session, rounds, l))
  }

  lemma BeginStays(disk: Disk, request: Frame, l: TransferLimits, os: OpenOs)
    ensures var r := Begin(disk, request, l, os); r.phase.Open? ==> r.phase.session.meta in r.disk.parts
  {
    hide DecodeMetadata, Feed, Admits, Blocked;
  }

  // ---------------------------------------------------------------------------
  // The code.
  // ---------------------------------------------------------------------------

  /** The destination directory: the part files and the committed files. */
  class Store {
    var parts: Parts
    var files: map<Path, Bytes>

    constructor (disk: Disk)
      ensures View() == disk
    {
      parts := disk.parts;
      files := disk.files;
    }

    function View(): Disk
      reads this
    {
      Disk(parts, files)
    }

    /** `cleanup`: unless the part has become the final file, it is unlinked. */
    method Cleanup(m: UploadMetadata, committed: bool, unlinks: bool)
      modifies this
      ensures View() == if !committed && unlinks then DropPart(old(View()), m) else old(View())
    {
      if !committed && unlinks {
        parts := parts - {m};
      }
    }

    /** `reject_transfer` before the rename. */
    method RejectTransfer(m: UploadMetadata, id: u64, status: Status, os: Os, ghost s: Session)
      returns (sent: seq<Frame>, final: Status)
      requires s.meta == m && s.id == id
      modifies this
      ensures Step(View(), Closed(final), sent, []) == Rejected(old(View()), s, status, os)
    {
      Cleanup(m, false, os.unlinks);
      sent := if os.sends then [ResultFrame(id, id, CodeFor(status))] else [];
      final := if os.sends then status else FrameIoError;
    }

    /** `interrupted`. */
    method LoseConnection(m: UploadMetadata, io: Io, syncs: bool, unlinks: bool, ghost s: Session)
      returns (final: Status)
      requires s.meta == m
      modifies this
      ensures Step(View(), Closed(final), [], []) == Interrupted(old(View()), s, io, syncs, unlinks)
    {
      if io == PeerGone || io == SystemError {
        if !syncs {
          Cleanup(m, false, unlinks);
          return FileWriteError;
        }
      } else {
        Cleanup(m, false, unlinks);
      }
      return FrameIoError;
    }
  }

  /** The locals of `receive_file` that its loop updates, besides the checksum object. */
  datatype Locals = Locals(offset: nat, position: nat, firstChunk: bool)

  ghost function SessionOf(m: UploadMetadata, id: u64, v: Locals, register: Word): Session
  {
    Session(m, id, v.offset, v.position, register, v.firstChunk)
  }

  /** The step the code has taken: still running with new locals, or ended with a status. */
  ghost predicate Took(r: Step, disk: Disk, m: UploadMetadata, id: u64, v: Locals, register: Word,
                       ended: Option<Status>, sent: seq<Frame>, commits: seq<Commit>)
  {
    && r.disk == disk && r.sent == sent && r.commits == commits
    && r.phase == if ended.Some? then Closed(ended.value) else Open(SessionOf(m, id, v, register))
  }

  /** The body of the loop for a chunk that passed its checks. */
  method WriteChunk(store: Store, m: UploadMetadata, id: u64, v: Locals, checksum: Crc32, data: Bytes, os: Os)
    returns (ended: Option<Status>, v': Locals, sent: seq<Frame>)
    requires m in store.parts && v.offset + |data| <= m.fileSize
    modifies store, checksum
    ensures Took(Appended(old(store.View()), SessionOf(m, id, v, old(checksum.state)), data, os),
                 store.View(), m, id, v', checksum.state, ended, sent, [])
  {
    hide Feed, WriteAt, PutUint, Rejected, Interrupted;
    ghost var s := SessionOf(m, id, v, checksum.state);
    v' := v;
    var part := store.parts[m];
    var final;
    if !os.writes {
      var taken := if os.written < |data| then data[..os.written] else data;
      store.parts := store.parts[m := part.(content := WriteAt(part.content, v.position, taken))];
      sent, final := store.RejectTransfer(m, id, FileWriteError, os, s);
      return Some(final), v', sent;
    }
    var content := WriteAt(part.content, v.position, data);
    store.parts := store.parts[m := part.(content := content)];
    v' := v'.(position := v.position + |data|);
    checksum.Update(data);
    v' := v'.(offset := v.offset + |data|);
    s := SessionOf(m, id, v', checksum.state);
    if !os.syncs {
      sent, final := store.RejectTransfer(m, id, FileWriteError, os, s);
      return Some(final), v', sent;
    }
    store.parts := store.parts[m := Part(content, |content|)];
    assert store.View() == SetPart(old(store.View()), m, Part(content, |content|));
    if !os.sends {
      final := store.LoseConnection(m, SystemError, os.syncsAgain, os.unlinks, s);
      return Some(final), v', [];
    }
    return None, v', [Reply(Acknowledgment, id, id, EncodeOffset(v'.offset))];
  }

  /** What follows the loop once size and checksum agree: synchronise, rename, report. */
  method CompleteTransfer(store: Store, m: UploadMetadata, id: u64, os: Os, ghost s: Session)
    returns (final: Status, sent: seq<Frame>, commits: seq<Commit>)
    requires m in store.parts && s.meta == m && s.id == id
    modifies store
    ensures Step(store.View(), Closed(final), sent, commits) == Finished(old(store.View()), s, os)
  {
    hide Rejected, EncodeResult, CodeFor;
    if !os.syncs || !os.renames || InTheWay(store.files, m.filename) {
      sent, final := store.RejectTransfer(m, id, FileCommitError, os, s);
      return final, sent, [];
    }
    var content := store.parts[m].content;
    store.parts := store.parts - {m};
    store.files := store.files[m.filename := content];
    commits := [Commit(m, id, content, os.syncsDirectories)];
    if !os.syncsDirectories {
      store.Cleanup(m, true, os.unlinks);
      sent := if os.sends then [ResultFrame(id, id, CodeFor(FileCommitError))] else [];
      final := if os.sends then FileCommitError else FrameIoError;
      return final, sent, commits;
    }
    sent := if os.sends then [ResultFrame(id, id, ResultCode.Success)] else [];
    final := if os.sends then Status.Success else FrameIoError;
  }

  /** `TransferComplete` ends the loop: size and checksum decide between commit and refusal. */
  method HandleComplete(store: Store, m: UploadMetadata, id: u64, v: Locals, checksum: Crc32, f: Frame,
                        l: TransferLimits, os: Os)
    returns (final: Status, sent: seq<Frame>, commits: seq<Commit>)
    requires m in store.parts
    requires f.header.requestId == f.header.transferId == id && f.header.messageType == TransferComplete
    modifies store
    ensures Took(Turn(old(store.View()), SessionOf(m, id, v, checksum.state), Arrived(f), l, os),
                 store.View(), m, id, v, checksum.state, Some(final), sent, commits)
  {
    hide Feed, Finished, WordNat, Rejected, Appended;
    ghost var s := SessionOf(m, id, v, checksum.state);
    commits := [];
    if f.payload != [] {
      sent, final := store.RejectTransfer(m, id, InvalidPayload, os, s);
      return;
    }
    if v.offset != m.fileSize {
      sent, final := store.RejectTransfer(m, id, Status.SizeMismatch, os, s);
      return;
    }
    var actual := checksum.Value();
    if actual != m.checksum {
      sent, final := store.RejectTransfer(m, id, Status.ChecksumMismatch, os, s);
      return;
    }
    final, sent, commits := CompleteTransfer(store, m, id, os, s);
  }

  /** `FileChunk`: a first chunk at offset zero restarts the part; then the chunk is checked and written. */
  method HandleChunk(store: Store, m: UploadMetadata, id: u64, v: Locals, checksum: Crc32, f: Frame,
                     l: TransferLimits, os: Os)
    returns (ended: Option<Status>, v': Locals, sent: seq<Frame>)
    requires m in store.parts
    requires f.header.requestId == f.header.transferId == id && f.header.messageType == MessageType.FileChunk
    modifies store, checksum
    ensures Took(Turn(old(store.View()), SessionOf(m, id, v, old(checksum.state)), Arrived(f), l, os),
                 store.View(), m, id, v', checksum.state, ended, sent, [])
  {
    hide Feed, Appended, Finished, WordNat, Rejected, DecodeChunk;
    ghost var s := SessionOf(m, id, v, checksum.state);
    v' := v;
    var final;
    var decoded := DecodeChunk(f.payload);
    if decoded.Err? {
      sent, final := store.RejectTransfer(m, id, InvalidPayload, os, s);
      return Some(final), v', sent;
    }
    var chunk := decoded.value;
    if v.firstChunk && v.offset != 0 && chunk.offset == 0 {
      if !os.truncates {
        sent, final := store.RejectTransfer(m, id, FileWriteError, os, s);
        return Some(final), v', sent;
      }
      store.parts := store.parts[m := Part([], 0)];
      if !os.seeks {
        sent, final := store.RejectTransfer(m, id, FileWriteError, os, s);
        return Some(final), v', sent;
      }
      checksum.state := ONES;
      v' := v'.(offset := 0, position := 0);
      s := Rewound(s);
    }
    if chunk.offset != v'.offset {
      sent, final := store.RejectTransfer(m, id, Status.UnexpectedOffset, os, s);
      return Some(final), v', sent;
    }
    if |chunk.data| > l.chunkSize || v'.offset > m.fileSize || |chunk.data| > m.fileSize - v'.offset {
      sent, final := store.RejectTransfer(m, id, Status.SizeMismatch, os, s);
      return Some(final), v', sent;
    }
    v' := v'.(firstChunk := false);
    ended, v', sent := WriteChunk(store, m, id, v', checksum, chunk.data, os);
  }

  /** One turn of the loop: dispatch on the frame. */
  method HandleFrame(store: Store, m: UploadMetadata, id: u64, v: Locals, checksum: Crc32, f: Frame,
                     l: TransferLimits, os: Os)
    returns (ended: Option<Status>, v': Locals, sent: seq<Frame>, commits: seq<Commit>)
    requires m in store.parts
    modifies store, checksum
    ensures Took(Turn(old(store.View()), SessionOf(m, id, v, old(checksum.state)), Arrived(f), l, os),
                 store.View(), m, id, v', checksum.state, ended, sent, commits)
  {
    hide Feed, Appended, Finished, WordNat, Rejected, DecodeChunk;
    ghost var s := SessionOf(m, id, v, checksum.state);
    v', commits := v, [];
    var final;
    if f.header.requestId != id || f.header.transferId != id {
      sent, final := store.RejectTransfer(m, id, Status.UnexpectedFrame, os, s);
      return Some(final), v', sent, commits;
    }
    if f.header.messageType == TransferComplete {
      final, sent, commits := HandleComplete(store, m, id, v, checksum, f, l, os);
      return Some(final), v', sent, commits;
    }
    if f.header.messageType != MessageType.FileChunk {
      sent, final := store.RejectTransfer(m, id, UnexpectedMessageType, os, s);
      return Some(final), v', sent, commits;
    }
    ended, v', sent := HandleChunk(store, m, id, v, checksum, f, l, os);
  }

  /** What the part of `receive_file` before its loop leaves behind: a refusal, or the locals of the loop. */
  datatype Opening = Refused(final: Status) | Opened(m: UploadMetadata, v: Locals)

  ghost predicate Began(r: Step, disk: Disk, id: u64, opening: Opening, register: Word, sent: seq<Frame>)
  {
    && r.disk == disk && r.sent == sent && r.commits == []
    && r.phase == if opening.Refused? then Closed(opening.final)
                  else Open(SessionOf(opening.m, id, opening.v, register))
  }

  /** `reject_before_ready`. */
  method RejectBeforeReady(id: u64, status: Status, sends: bool, ghost disk: Disk)
    returns (opening: Opening, sent: seq<Frame>)
    ensures opening.Refused?
    ensures Step(disk, Closed(opening.final), sent, []) == RefusedEarly(disk, id, status, sends)
  {
    opening := Refused(if sends then status else FrameIoError);
    sent := if sends then [ResultFrame(id, 0, CodeFor(status))] else [];
  }

  /** From the opened part file to the offer. */
  method OfferTransfer(store: Store, m: UploadMetadata, id: u64, os: OpenOs, checksum: Crc32)
    returns (opening: Opening, sent: seq<Frame>)
    requires m in store.parts && checksum.state == ONES
    modifies store, checksum
    ensures Began(Offered(old(store.View()), m, id, os), store.View(), id, opening, checksum.state, sent)
  {
    hide Feed, RefusedEarly, Interrupted, PutUint, WordNat, ReadsBack;
    if |store.parts[m].content| > m.fileSize {
      if !os.truncates {
        opening, sent := RejectBeforeReady(id, FileWriteError, os.sends, store.View());
        return;
      }
      store.parts := store.parts[m := Part([], 0)];
    }
    ghost var disk := old(store.View());
    assert store.View() == if Oversized(disk, m) then SetPart(disk, m, Part([], 0)) else disk;
    var content := store.parts[m].content;
    var ok := ReadPartialPrefix(content, |content|, os.readCalls, checksum);
    assert content[..|content|] == content;
    if !ok {
      opening, sent := RejectBeforeReady(id, FileReadError, os.sends, store.View());
      return;
    }
    var v := Locals(|content|, |content|, true);
    ghost var s := SessionOf(m, id, v, checksum.state);
    var prefix := checksum.Value();
    WordRoundTrip(Xor(checksum.state, ONES));
    if !os.sends {
      var final := store.LoseConnection(m, SystemError, os.syncs, os.unlinks, s);
      return Refused(final), [];
    }
    return Opened(m, v), [Reply(MessageType.TransferReady, id, id, EncodeReady(Ready(v.offset, prefix)))];
  }

  /** `receive_file` up to the offer, given a listing of the partial directory. */
  method OpenTransfer(store: Store, request: Frame, l: TransferLimits, os: OpenOs, entries: seq<DirEntry>,
                      checksum: Crc32)
    returns (opening: Opening, sent: seq<Frame>)
    requires Lists(Regular(entries), store.parts) && (os.tidy <==> Tidy(entries)) && checksum.state == ONES
    modifies store, checksum
    ensures Began(Begin(old(store.View()), request, l, os), store.View(), request.header.requestId,
                  opening, checksum.state, sent)
  {
    hide RefusedEarly, Offered, DecodeMetadata, Lists, Regular, OthersBytes, OthersCount, Admits, Blocked;
    ghost var disk := store.View();
    var id := request.header.requestId;
    if request.header.messageType != UploadRequest || request.header.transferId != 0 || id == 0 || !ValidLimits(l) {
      opening, sent := RejectBeforeReady(id, Status.InvalidRequest, os.sends, disk);
      return;
    }
    var decoded := DecodeMetadata(request.payload);
    if decoded.Err? {
      opening, sent := RejectBeforeReady(id, MetadataStatus(decoded.error), os.sends, disk);
      return;
    }
    var m := decoded.value;
    if m.fileSize > l.maxFileSize {
      opening, sent := RejectBeforeReady(id, Status.FileTooLarge, os.sends, disk);
      return;
    }
    if os.prepares != DestinationReady {
      var status := if os.prepares == DestinationInvalid then Status.InvalidPath else FileOpenError;
      opening, sent := RejectBeforeReady(id, status, os.sends, disk);
      return;
    }
    var blocked := ParentIsFile(store.files, m.filename);
    if blocked {
      opening, sent := RejectBeforeReady(id, Status.InvalidPath, os.sends, disk);
      return;
    }
    BudgetDecidesAdmission(entries, store.parts, m, l);
    var within := WithinPartialBudget(entries, m, l);
    // An own name that is not a regular file fails the open, or the check that follows it.
    if !within || !os.opens || NotRegular(m) in entries {
      opening, sent := RejectBeforeReady(id, FileOpenError, os.sends, disk);
      return;
    }
    assert os.tidy;
    if m !in store.parts {
      store.parts := store.parts[m := Part([], 0)];
    }
    assert store.View() == Created(disk, m);
    if !os.checks {
      opening, sent := RejectBeforeReady(id, FileOpenError, os.sends, store.View());
      RefusedEarlyStays(store.View(), id, FileOpenError, os.sends);
      return;
    }
    opening, sent := OfferTransfer(store, m, id, os, checksum);
  }

  lemma RefusedEarlyStays(disk: Disk, id: u64, status: Status, sends: bool)
    ensures RefusedEarly(disk, id, status, sends).disk == disk
  {
  }

  /** `receive_file`: the whole session is the fold of its turns, whatever the client and the system do. */
  method ReceiveFile(store: Store, request: Frame, l: TransferLimits, os: OpenOs, entries: seq<DirEntry>,
                     rounds: seq<Round>)
    returns (final: Status, sent: seq<Frame>, commits: seq<Commit>)
    requires Lists(Regular(entries), store.parts) && (os.tidy <==> Tidy(entries))
    modifies store
    ensures Step(store.View(), Closed(final), sent, commits)
         == WholeSession(old(store.View()), request, l, os, rounds)
  {
    hide Begin, Turn, Lists, Regular, Tidy;
    var checksum := new Crc32();
    var opening;
    opening, sent := OpenTransfer(store, request, l, os, entries, checksum);
    commits := [];
    if opening.Refused? {
      return opening.final, sent, commits;
    }
    var m, id, v := opening.m, request.header.requestId, opening.v;
    BeginStays(old(store.View()), request, l, os);
    var i, open := 0, true;
    final := FrameIoError;
    ghost var whole := WholeSession(old(store.View()), request, l, os, rounds);
    assert rounds[0..] == rounds;
    while open
      invariant 0 <= i <= |rounds|
      invariant open ==> m in store.parts
      invariant open ==>
        whole == FollowedBy(Step(store.View(), Closed(FrameIoError), sent, commits),
                      Turns(store.View(), SessionOf(m, id, v, checksum.state), rounds[i..], l))
      invariant !open ==> whole == Step(store.View(), Closed(final), sent, commits)
      invariant fresh(checksum)
      decreases open, |rounds| - i
    {
      ghost var disk, s := store.View(), SessionOf(m, id, v, checksum.state);
      var now := RoundAt(rounds[i..]);
      TurnStays(disk, s, now.input, l, now.os);
      if now.input.Failed? {
        final := store.LoseConnection(m, now.input.io, now.os.syncs, now.os.unlinks, s);
        LostTurn(disk, s, now.input.io, l, now.os, rounds[i..]);
        open := false;
      } else {
        var ended, more, made;
        ended, v, more, made := HandleFrame(store, m, id, v, checksum, now.input.frame, l, now.os);
        sent, commits := sent + more, commits + made;
        if ended.Some? {
          final, open := ended.value, false;
        } else {
          assert rounds[i..][1..] == rounds[i + 1..];
          i := i + 1;
        }
      }
    }
  }

  lemma LostTurn(disk: Disk, s: Session, io: Io, l: TransferLimits, os: Os, rounds: seq<Round>)
    requires s.meta in disk.parts && RoundAt(rounds) == Round(Failed(io), os)
    ensures Turns(disk, s, rounds, l) == Interrupted(disk, s, io, os.syncs, os.unlinks)
  {
    hide Feed;
  }
}
