/**
 * Whole runs of the upload server against arbitrary clients: sessions one after another on one
 * destination, with system calls failing, the process being killed in mid-turn, and power loss.
 */
module ServerRuns {
  import opened Words
  import opened Wire
  import opened Frames
  import opened Paths
  import opened Bits
  import opened Checksum
  import opened TransferCodec
  import opened PartialStore
  import opened Receiver

  // ---------------------------------------------------------------------------
  // What every step keeps.
  // ---------------------------------------------------------------------------

  ghost predicate PartsOk(parts: Parts)
  {
    forall k :: k in parts ==> parts[k].synced <= |parts[k].content|
  }

  /**
   * An open transfer: the offset, the file position and the length of the part agree and stay
   * within the declared size, and the running checksum is that of the part's content.
   */
  ghost predicate SessionOk(disk: Disk, s: Session)
  {
    && s.meta in disk.parts
    && var content := disk.parts[s.meta].content;
       && s.offset == s.position == |content| <= s.meta.fileSize
       && s.register == Feed(ONES, content)
       && s.id != 0
  }

  /** A commit whose content has exactly the declared size and checksum. */
  ghost predicate Verified(c: Commit)
  {
    |c.content| == c.meta.fileSize && Crc(c.content) == c.meta.checksum
  }

  /** The frame tells the client that the upload succeeded. */
  predicate Announces(f: Frame)
  {
    f.header.messageType == TransferResult && DecodeResult(f.payload) == Ok(ResultCode.Success)
  }

  /** Every success that was sent has a durable commit of the same request behind it. */
  ghost predicate Backed(sent: seq<Frame>, commits: seq<Commit>)
  {
    forall f :: f in sent && Announces(f) ==> exists c :: c in commits && c.durable && c.id == f.header.requestId
  }

  /** The committed files after a sequence of commits. */
  function Replay(files: map<Path, Bytes>, commits: seq<Commit>): map<Path, Bytes>
    decreases |commits|
  {
    if commits == [] then files
    else Replay(files[commits[0].meta.filename := commits[0].content], commits[1..])
  }

  lemma {:induction false} ReplayAppend(files: map<Path, Bytes>, a: seq<Commit>, b: seq<Commit>)
    ensures Replay(files, a + b) == Replay(Replay(files, a), b)
    decreases |a|
  {
    if a == [] {
      assert a + b == b;
    } else {
      assert (a + b)[1..] == a[1..] + b;
      ReplayAppend(files[a[0].meta.filename := a[0].content], a[1..], b);
    }
  }

  /** The commits whose rename has not been undone, in order. */
  function Surviving(commits: seq<Commit>, lost: set<nat>): (kept: seq<Commit>)
  {
    if commits == [] then [] else
      var n := |commits| - 1;
      Surviving(commits[..n], lost) + (if n in lost then [] else [commits[n]])
  }

  lemma {:induction false} SurvivorsMade(commits: seq<Commit>, lost: set<nat>)
    ensures forall c :: c in Surviving(commits, lost) ==> c in commits
  {
    if commits != [] {
      SurvivorsMade(commits[..|commits| - 1], lost);
    }
  }

  lemma {:induction false} SurvivingAppend(commits: seq<Commit>, more: seq<Commit>, lost: set<nat>)
    requires forall i :: i in lost ==> i < |commits|
    ensures Surviving(commits + more, lost) == Surviving(commits, lost) + more
    decreases |more|
  {
    if more == [] {
      assert commits + more == commits;
      assert Surviving(commits, lost) + [] == Surviving(commits, lost);
    } else {
      var n := |more| - 1;
      SurvivingAppend(commits, more[..n], lost);
      var all := commits + more;
      assert all != [] && |all| - 1 == |commits| + n && all[|all| - 1] == more[n];
      assert all[..|all| - 1] == commits + more[..n];
      assert Surviving(all, lost) == Surviving(commits + more[..n], lost) + [more[n]];
      assert Surviving(commits, lost) + more == (Surviving(commits, lost) + more[..n]) + [more[n]];
    }
  }

  lemma {:induction false} AllSurvive(commits: seq<Commit>)
    ensures Surviving(commits, {}) == commits
  {
    if commits != [] {
      AllSurvive(commits[..|commits| - 1]);
    }
  }

  /** A step of a transfer of `m` touches no other part, and files only through verified commits. */
  ghost predicate GoodStep(disk: Disk, m: UploadMetadata, r: Step)
  {
    && PartsOk(r.disk.parts)
    && r.disk.parts - {m} == disk.parts - {m}
    && r.disk.files == Replay(disk.files, r.commits)
    && (forall c :: c in r.commits ==> c.meta == m && Verified(c))
    && (r.phase.Open? ==> r.phase.session.meta == m && SessionOk(r.disk, r.phase.session))
    && Backed(r.sent, r.commits)
  }

  /** The part, if it exists, is within the declared size. */
  ghost predicate Fits(disk: Disk, m: UploadMetadata)
  {
    m in disk.parts ==> |disk.parts[m].content| <= m.fileSize
  }

  lemma ReplyIsNoSuccess(t: MessageType, id: u64, transferId: u64, payload: Bytes)
    requires |payload| < U32_LIMIT && t != TransferResult
    ensures !Announces(Reply(t, id, transferId, payload))
  {
  }

  lemma RefusalIsNoSuccess(id: u64, transferId: u64, status: Status)
    ensures !Announces(ResultFrame(id, transferId, CodeFor(status)))
  {
    ResultRoundTrip(CodeFor(status));
  }

  lemma RejectedKeeps(disk: Disk, s: Session, status: Status, os: Os)
    requires PartsOk(disk.parts)
    ensures var r := Rejected(disk, s, status, os);
      GoodStep(disk, s.meta, r)
      && (Fits(disk, s.meta) ==> Fits(r.disk, s.meta))
  {
    RefusalIsNoSuccess(s.id, s.id, status);
    assert disk.parts - {s.meta} - {s.meta} == disk.parts - {s.meta};
  }

  lemma InterruptedKeeps(disk: Disk, s: Session, io: Io, syncs: bool, unlinks: bool)
    requires PartsOk(disk.parts)
    ensures var r := Interrupted(disk, s, io, syncs, unlinks);
      GoodStep(disk, s.meta, r) && (Fits(disk, s.meta) ==> Fits(r.disk, s.meta))
  {
    assert disk.parts - {s.meta} - {s.meta} == disk.parts - {s.meta};
  }

  lemma SetPartKeeps(disk: Disk, m: UploadMetadata, p: Part)
    requires PartsOk(disk.parts) && p.synced <= |p.content|
    ensures PartsOk(SetPart(disk, m, p).parts) && SetPart(disk, m, p).parts - {m} == disk.parts - {m}
  {
  }

  lemma WriteAtEnd(content: Bytes, data: Bytes)
    ensures WriteAt(content, |content|, data) == content + data
  {
  }

  lemma AppendedKeeps(disk: Disk, s: Session, data: Bytes, os: Os)
    requires PartsOk(disk.parts) && SessionOk(disk, s) && s.offset + |data| <= s.meta.fileSize
    ensures var r := Appended(disk, s, data, os); GoodStep(disk, s.meta, r) && Fits(r.disk, s.meta)
  {
    hide Feed, PutUint, Rejected, Interrupted, WriteAt, Announces, GoodStep;
    var part := disk.parts[s.meta];
    var taken := if os.written < |data| then data[..os.written] else data;
    WriteAtEnd(part.content, taken);
    WriteAtEnd(part.content, data);
    var content := part.content + data;
    var s' := s.(offset := s.offset + |data|, position := s.position + |data|, register := Feed(s.register, data));
    if !os.writes {
      var disk' := SetPart(disk, s.meta, part.(content := part.content + taken));
      SetPartKeeps(disk, s.meta, part.(content := part.content + taken));
      RejectedKeeps(disk', s, FileWriteError, os);
      ChainStep(disk, disk', s.meta);
    } else if !os.syncs {
      var disk' := SetPart(disk, s.meta, part.(content := content));
      SetPartKeeps(disk, s.meta, part.(content := content));
      RejectedKeeps(disk', s', FileWriteError, os);
      ChainStep(disk, disk', s.meta);
    } else {
      var disk' := SetPart(disk, s.meta, Part(content, |content|));
      SetPartKeeps(disk, s.meta, Part(content, |content|));
      FeedAppend(ONES, part.content, data);
      InterruptedKeeps(disk', s', SystemError, os.syncsAgain, os.unlinks);
      AcknowledgedKeeps(disk', s');
      ChainStep(disk, disk', s.meta);
    }
  }

  lemma AcknowledgedKeeps(disk: Disk, s: Session)
    requires PartsOk(disk.parts) && SessionOk(disk, s)
    ensures GoodStep(disk, s.meta, Step(disk, Open(s), [Reply(Acknowledgment, s.id, s.id, EncodeOffset(s.offset))], []))
  {
    hide Feed, PutUint;
    ReplyIsNoSuccess(Acknowledgment, s.id, s.id, EncodeOffset(s.offset));
  }

  lemma FinishedKeeps(disk: Disk, s: Session, os: Os)
    requires PartsOk(disk.parts) && SessionOk(disk, s)
    requires s.offset == s.meta.fileSize && WordNat(Xor(s.register, ONES)) == s.meta.checksum
    ensures var r := Finished(disk, s, os); GoodStep(disk, s.meta, r) && Fits(r.disk, s.meta)
  {
    hide Feed, WordNat;
    RejectedKeeps(disk, s, FileCommitError, os);
    RefusalIsNoSuccess(s.id, s.id, FileCommitError);
    var r := Finished(disk, s, os);
    if os.syncs && os.renames && !InTheWay(disk.files, s.meta.filename) {
      assert disk.parts - {s.meta} - {s.meta} == disk.parts - {s.meta};
      var c := r.commits[0];
      assert r.commits == [c] && r.commits[1..] == [];
      assert Verified(c);
      assert Replay(disk.files, r.commits) == r.disk.files;
      assert forall f :: f in r.sent ==> f.header.requestId == c.id;
      assert c in r.commits;
    }
  }

  lemma TurnKeeps(disk: Disk, s: Session, input: Incoming, l: TransferLimits, os: Os)
    requires PartsOk(disk.parts) && SessionOk(disk, s)
    ensures var r := Turn(disk, s, input, l, os); GoodStep(disk, s.meta, r) && Fits(r.disk, s.meta)
  {
    hide Rejected, Interrupted, Appended, Finished, GoodStep;
    if input.Failed? {
      InterruptedKeeps(disk, s, input.io, os.syncs, os.unlinks);
    } else {
      var v := Judge(s, input.frame, l);
      if v.Finish? {
        FinishedKeeps(disk, s, os);
      } else {
        RejectedKeeps(disk, s, FileWriteError, os);
        var disk' := if v.restart then SetPart(disk, s.meta, Part([], 0)) else disk;
        SetPartKeeps(disk, s.meta, Part([], 0));
        var s' := if v.restart then Rewound(s) else s;
        assert SessionOk(disk', s'.(firstChunk := false));
        RejectedKeeps(disk', s, FileWriteError, os);
        if v.Refuse? {
          RejectedKeeps(disk', s', v.status, os);
        } else {
          AppendedKeeps(disk', s'.(firstChunk := false), v.data, os);
        }
        ChainStep(disk, disk', s.meta);
      }
    }
  }

  /** A good step from a store that differs only in this part is a good step. */
  lemma ChainStep(disk: Disk, disk': Disk, m: UploadMetadata)
    requires disk.files == disk'.files && disk.parts - {m} == disk'.parts - {m}
    ensures forall r :: GoodStep(disk', m, r) ==> GoodStep(disk, m, r)
  {
  }

  lemma RefusedEarlyKeeps(disk: Disk, m: UploadMetadata, id: u64, status: Status, sends: bool)
    requires PartsOk(disk.parts)
    ensures GoodStep(disk, m, RefusedEarly(disk, id, status, sends))
  {
    RefusalIsNoSuccess(id, 0, status);
  }

  lemma OfferedKeeps(disk: Disk, m: UploadMetadata, id: u64, os: OpenOs)
    requires m in disk.parts && PartsOk(disk.parts) && id != 0
    ensures var r := Offered(disk, m, id, os);
      GoodStep(disk, m, r) && (r.disk == disk || Fits(r.disk, m)) && (r.phase.Open? ==> Fits(r.disk, m))
  {
    hide Feed, GoodStep, Interrupted, RefusedEarly;
    var cut := Oversized(disk, m);
    var disk' := if cut then SetPart(disk, m, Part([], 0)) else disk;
    SetPartKeeps(disk, m, Part([], 0));
    RefusedEarlyKeeps(disk, m, id, FileWriteError, os.sends);
    RefusedEarlyKeeps(disk', m, id, FileReadError, os.sends);
    var content := disk'.parts[m].content;
    var s := Session(m, id, |content|, |content|, Feed(ONES, content), true);
    InterruptedKeeps(disk', s, SystemError, os.syncs, os.unlinks);
    OpenStepKeeps(disk', s);
    ChainStep(disk, disk', m);
    RefusedEarlyDisk(disk, id, FileWriteError, os.sends);
    RefusedEarlyDisk(disk', id, FileReadError, os.sends);
  }

  lemma RefusedEarlyDisk(disk: Disk, id: u64, status: Status, sends: bool)
    ensures var r := RefusedEarly(disk, id, status, sends); r.disk == disk && r.phase.Closed? && r.commits == []
  {
  }

  lemma OpenStepKeeps(disk: Disk, s: Session)
    requires PartsOk(disk.parts) && SessionOk(disk, s)
    ensures GoodStep(disk, s.meta, Step(disk, Open(s), [OfferFrame(s)], []))
  {
    hide EncodeReady;
  }

  /** `receive_file` up to the offer touches at most the part its request names, and commits nothing. */
  lemma BeginKeeps(disk: Disk, f: Frame, l: TransferLimits, os: OpenOs)
    requires PartsOk(disk.parts)
    ensures var r, decoded := Begin(disk, f, l, os), DecodeMetadata(f.payload);
      && r.commits == []
      && (r.disk != disk || r.phase.Open? ==> decoded.Ok? && Admits(disk.parts, decoded.value, l))
      && (decoded.Ok? ==>
            && GoodStep(disk, decoded.value, r)
            && (r.disk == disk || Fits(r.disk, decoded.value))
            && (r.phase.Open? ==> Fits(r.disk, decoded.value)))
      && (decoded.Err? ==> r.disk == disk && r.phase.Closed? && Backed(r.sent, []))
  {
    hide DecodeMetadata, GoodStep, Offered, Admits, Blocked;
    var id, decoded := f.header.requestId, DecodeMetadata(f.payload);
    forall status
      ensures var r := RefusedEarly(disk, id, status, os.sends);
        r.disk == disk && r.phase.Closed? && r.commits == [] && Backed(r.sent, [])
    {
      RefusalIsNoSuccess(id, 0, status);
    }
    if decoded.Ok? {
      var m := decoded.value;
      forall status
        ensures GoodStep(disk, m, RefusedEarly(disk, id, status, os.sends))
      {
        RefusedEarlyKeeps(disk, m, id, status, os.sends);
      }
      var created := Created(disk, m);
      SetPartKeeps(disk, m, Part([], 0));
      RefusedEarlyKeeps(created, m, id, FileOpenError, os.sends);
      ChainStep(disk, created, m);
      if WellFormedRequest(f, l) {
        OfferedKeeps(created, m, id, os);
        OfferedCommits(created, m, id, os);
      }
    }
  }

  lemma OfferedCommits(disk: Disk, m: UploadMetadata, id: u64, os: OpenOs)
    requires m in disk.parts
    ensures Offered(disk, m, id, os).commits == []
  {
    hide Feed;
  }

  // ---------------------------------------------------------------------------
  // Kills and power loss.
  // ---------------------------------------------------------------------------

  /** Where in a turn the process was when it was killed. */
  datatype Spot = BeforeCalls | AfterTruncate | AfterWriting(n: nat) | AfterUnlink | AfterRename

  /** The store (and the commit, if the rename had happened) that a kill leaves behind. */
  function Torn(disk: Disk, s: Session, input: Incoming, l: TransferLimits, spot: Spot): (r: (Disk, seq<Commit>))
    requires s.meta in disk.parts
  {
    if spot.AfterUnlink? then (DropPart(disk, s.meta), [])
    else if input.Failed? || spot.BeforeCalls? then (disk, [])
    else
      var v := Judge(s, input.frame, l);
      if v.Finish? then
        if spot.AfterRename? && !InTheWay(disk.files, s.meta.filename) then
          var content := disk.parts[s.meta].content;
          (Disk(disk.parts - {s.meta}, disk.files[s.meta.filename := content]), [Commit(s.meta, s.id, content, false)])
        else (disk, [])
      else
        var disk' := if v.restart then SetPart(disk, s.meta, Part([], 0)) else disk;
        if v.Append? && spot.AfterWriting? then
          var taken := if spot.n < |v.data| then v.data[..spot.n] else v.data;
          var part, position := disk'.parts[s.meta], if v.restart then 0 else s.position;
          (SetPart(disk', s.meta, part.(content := WriteAt(part.content, position, taken))), [])
        else (disk', [])
  }

  /** The store a kill leaves behind between the admission of a request and the offer. */
  ghost function TornOpening(disk: Disk, f: Frame, l: TransferLimits, truncated: bool): (r: Disk)
  {
    var decoded := DecodeMetadata(f.payload);
    if !WellFormedRequest(f, l) || decoded.Err? || decoded.value.fileSize > l.maxFileSize
       || Blocked(disk.files, decoded.value.filename) || !Admits(disk.parts, decoded.value, l) then disk
    else
      var m, created := decoded.value, Created(disk, decoded.value);
      if truncated && Oversized(created, m) then SetPart(created, m, Part([], 0)) else created
  }

  // ---------------------------------------------------------------------------
  // Runs.
  // ---------------------------------------------------------------------------

  /**
   * The server: its store, the open transfer, all commits ever made and frames ever sent. The files
   * are those of `base` with the commits replayed, but for the `lost` ones, which power loss undid.
   */
  datatype State = State(
    disk: Disk,
    session: Option<Session>,
    commits: seq<Commit>,
    sent: seq<Frame>,
    base: map<Path, Bytes>,
    lost: set<nat>)

  datatype Event =
    | Request(request: Frame, openOs: OpenOs)
    | Input(input: Incoming, os: Os)
    | KillOpening(request: Frame, truncated: bool)
    | Kill(input: Incoming, spot: Spot)
    | PowerLoss(parts: Parts, lost: set<nat>)

  function After(st: State, r: Step): State
  {
    st.(disk := r.disk, session := if r.phase.Open? then Some(r.phase.session) else None,
        commits := st.commits + r.commits, sent := st.sent + r.sent)
  }

  /** A part that a rename had taken away is back. */
  ghost predicate Returned(st: State, lost: set<nat>, k: UploadMetadata, p: Part)
  {
    exists i :: i in lost - st.lost && i < |st.commits| && st.commits[i].meta == k
      && p == Part(st.commits[i].content, |st.commits[i].content|)
  }

  /**
   * What power loss may leave: synchronised bytes survive; what follows them, and parts with none,
   * may be anything or gone; renames whose directories were not synchronised may be undone.
   */
  ghost predicate Survives(st: State, parts': Parts, lost: set<nat>)
  {
    var parts := st.disk.parts;
    && (forall k :: k in parts && 0 < parts[k].synced <= |parts[k].content| ==>
          && k in parts'
          && parts'[k].synced == parts[k].synced <= |parts'[k].content|
          && parts'[k].content[..parts[k].synced] == parts[k].content[..parts[k].synced])
    && (forall k :: k in parts' && k in parts && parts[k].synced == 0 ==> parts'[k].synced == 0)
    && (forall k :: k in parts' && k !in parts ==> Returned(st, lost, k, parts'[k]))
    && st.lost <= lost && forall i :: i in lost ==> i < |st.commits| && !st.commits[i].durable
  }

  /** One event; an event that cannot happen in the state changes nothing. */
  ghost function Next(st: State, ev: Event, l: TransferLimits): (st': State)
    requires st.session.Some? ==> st.session.value.meta in st.disk.parts
  {
    match ev
    case Request(f, os) => if st.session.Some? then st else After(st, Begin(st.disk, f, l, os))
    case Input(input, os) => if st.session.None? then st else After(st, Turn(st.disk, st.session.value, input, l, os))
    case KillOpening(f, truncated) =>
      if st.session.Some? then st else st.(disk := TornOpening(st.disk, f, l, truncated))
    case Kill(input, spot) =>
      if st.session.None? then st else
        var (disk, commits) := Torn(st.disk, st.session.value, input, l, spot);
        st.(disk := disk, session := None, commits := st.commits + commits)
    case PowerLoss(parts, lost) =>
      if !Survives(st, parts, lost) then st
      else st.(disk := Disk(parts, Replay(st.base, Surviving(st.commits, lost))), session := None, lost := lost)
  }

  /** What holds in every reachable state of a server that started with `files`. */
  ghost predicate Inv(files: map<Path, Bytes>, st: State)
  {
    && PartsOk(st.disk.parts)
    && (st.session.Some? ==> SessionOk(st.disk, st.session.value))
    && (forall c :: c in st.commits ==> Verified(c))
    && st.base == files
    && (forall i :: i in st.lost ==> i < |st.commits| && !st.commits[i].durable)
    && st.disk.files == Replay(files, Surviving(st.commits, st.lost))
    && Backed(st.sent, st.commits)
  }

  lemma BackedAppend(sent: seq<Frame>, commits: seq<Commit>, sent': seq<Frame>, commits': seq<Commit>)
    requires Backed(sent, commits) && Backed(sent', commits')
    ensures Backed(sent + sent', commits + commits')
  {
    hide Announces;
    forall f | f in sent + sent' && Announces(f)
      ensures exists c :: c in commits + commits' && c.durable && c.id == f.header.requestId
    {
      if f in sent {
        var c :| c in commits && c.durable && c.id == f.header.requestId;
        assert c in commits + commits';
      } else {
        var c :| c in commits' && c.durable && c.id == f.header.requestId;
        assert c in commits + commits';
      }
    }
  }

  lemma AfterKeeps(files: map<Path, Bytes>, st: State, m: UploadMetadata, r: Step)
    requires Inv(files, st) && GoodStep(st.disk, m, r)
    ensures Inv(files, After(st, r))
  {
    hide Announces, Verified, SessionOk, Backed, Surviving;
    SurvivingAppend(st.commits, r.commits, st.lost);
    ReplayAppend(files, Surviving(st.commits, st.lost), r.commits);
    BackedAppend(st.sent, st.commits, r.sent, r.commits);
  }

  /** A kill leaves a store the next session can start from; a rename that happened was of verified content. */
  lemma TornKeeps(disk: Disk, s: Session, input: Incoming, l: TransferLimits, spot: Spot)
    requires PartsOk(disk.parts) && SessionOk(disk, s)
    ensures var (disk', commits) := Torn(disk, s, input, l, spot);
      && PartsOk(disk'.parts)
      && disk'.parts - {s.meta} == disk.parts - {s.meta}
      && disk'.files == Replay(disk.files, commits)
      && (forall c :: c in commits ==> c.meta == s.meta && Verified(c))
      && Fits(disk', s.meta)
  {
    hide Feed, Judge, WriteAt, Verified;
    assert disk.parts - {s.meta} - {s.meta} == disk.parts - {s.meta};
    if input.Arrived? {
      var v := Judge(s, input.frame, l);
      if v.Finish? {
        if spot.AfterRename? && !InTheWay(disk.files, s.meta.filename) {
          TornRename(disk, s, input.frame, l);
        }
      } else {
        var disk' := if v.restart then SetPart(disk, s.meta, Part([], 0)) else disk;
        SetPartKeeps(disk, s.meta, Part([], 0));
        if v.Append? && spot.AfterWriting? {
          var part, taken := disk'.parts[s.meta], if spot.n < |v.data| then v.data[..spot.n] else v.data;
          WriteAtEnd(part.content, taken);
          SetPartKeeps(disk', s.meta, part.(content := part.content + taken));
        }
      }
    }
  }

  lemma TornRename(disk: Disk, s: Session, f: Frame, l: TransferLimits)
    requires SessionOk(disk, s) && Judge(s, f, l) == Finish
    ensures var content := disk.parts[s.meta].content;
      var c := Commit(s.meta, s.id, content, false);
      Verified(c) && Replay(disk.files, [c]) == disk.files[s.meta.filename := content]
  {
    hide Feed, WordNat;
    var c := Commit(s.meta, s.id, disk.parts[s.meta].content, false);
    assert [c][1..] == [];
  }

  lemma TornOpeningKeeps(disk: Disk, f: Frame, l: TransferLimits, truncated: bool)
    requires PartsOk(disk.parts)
    ensures var disk', decoded := TornOpening(disk, f, l, truncated), DecodeMetadata(f.payload);
      && PartsOk(disk'.parts) && disk'.files == disk.files
      && (disk' != disk ==>
            && decoded.Ok? && Admits(disk.parts, decoded.value, l) && Fits(disk', decoded.value)
            && disk'.parts - {decoded.value} == disk.parts - {decoded.value})
  {
    hide DecodeMetadata, Admits, Blocked;
    var decoded := DecodeMetadata(f.payload);
    if decoded.Ok? {
      var m, created := decoded.value, Created(disk, decoded.value);
      SetPartKeeps(disk, m, Part([], 0));
      SetPartKeeps(created, m, Part([], 0));
    }
  }

  lemma NextKeeps(files: map<Path, Bytes>, st: State, ev: Event, l: TransferLimits)
    requires Inv(files, st)
    ensures Inv(files, Next(st, ev, l))
  {
    hide Begin, Turn, Torn, TornOpening, GoodStep, Verified, Announces, Replay, DecodeMetadata, Surviving;
    match ev
    case Request(f, os) =>
      if st.session.None? {
        BeginKeeps(st.disk, f, l, os);
        var r, decoded := Begin(st.disk, f, l, os), DecodeMetadata(f.payload);
        if decoded.Ok? {
          AfterKeeps(files, st, decoded.value, r);
        } else {
          BackedAppend(st.sent, st.commits, r.sent, []);
          assert st.commits + [] == st.commits;
        }
      }
    case Input(input, os) =>
      if st.session.Some? {
        TurnKeeps(st.disk, st.session.value, input, l, os);
        AfterKeeps(files, st, st.session.value.meta, Turn(st.disk, st.session.value, input, l, os));
      }
    case KillOpening(f, truncated) =>
      TornOpeningKeeps(st.disk, f, l, truncated);
    case Kill(input, spot) =>
      if st.session.Some? {
        TornKeeps(st.disk, st.session.value, input, l, spot);
        var commits := Torn(st.disk, st.session.value, input, l, spot).1;
        SurvivingAppend(st.commits, commits, st.lost);
        ReplayAppend(files, Surviving(st.commits, st.lost), commits);
        NothingSent(commits);
        BackedAppend(st.sent, st.commits, [], commits);
        assert st.sent + [] == st.sent;
      }
    case PowerLoss(parts, lost) =>
  }

  lemma NothingSent(commits: seq<Commit>)
    ensures Backed([], commits)
  {
  }

  /** A run from a state in which no transfer is open. */
  ghost function Run(files: map<Path, Bytes>, st: State, events: seq<Event>, l: TransferLimits): (st': State)
    requires Inv(files, st)
    ensures Inv(files, st')
    decreases |events|
  {
    if events == [] then st else
      NextKeeps(files, st, events[0], l);
      Run(files, Next(st, events[0], l), events[1..], l)
  }

  function Fresh(disk: Disk): State
  {
    State(disk, None, [], [], disk.files, {})
  }

  lemma FreshInv(disk: Disk)
    requires PartsOk(disk.parts)
    ensures Inv(disk.files, Fresh(disk))
  {
  }

  lemma {:induction false} ReplayAt(files: map<Path, Bytes>, commits: seq<Commit>, path: Path)
    ensures var files' := Replay(files, commits);
      || ((path in files' <==> path in files) && (path in files ==> files'[path] == files[path]))
      || (path in files' && exists c :: c in commits && c.meta.filename == path && c.content == files'[path])
    decreases |commits|
  {
    if commits != [] {
      var c0 := commits[0];
      ReplayAt(files[c0.meta.filename := c0.content], commits[1..], path);
      var files' := Replay(files, commits);
      if path in files' && exists c :: c in commits[1..] && c.meta.filename == path && c.content == files'[path] {
        var c :| c in commits[1..] && c.meta.filename == path && c.content == files'[path];
        assert c in commits;
      } else {
        assert c0 in commits;
      }
    }
  }

  /**
   * Safety of every run against arbitrary clients, with failures, kills and power loss:
   * a final path changes only to verified content of some commit, every success sent had a durable
   * verified commit behind it, and an open transfer's offset, position, part and checksum agree.
   */
  lemma EveryRunIsSafe(disk: Disk, events: seq<Event>, l: TransferLimits, path: Path)
    requires PartsOk(disk.parts)
    ensures (
      FreshInv(disk);
      var st := Run(disk.files, Fresh(disk), events, l);
      && (|| ((path in st.disk.files <==> path in disk.files)
              && (path in disk.files ==> st.disk.files[path] == disk.files[path]))
          || (path in st.disk.files &&
              exists c :: c in st.commits && c.meta.filename == path && c.content == st.disk.files[path]
                && Verified(c)))
      && (forall f :: f in st.sent && Announces(f) ==>
            exists c :: c in st.commits && c.durable && c.id == f.header.requestId && Verified(c))
      && (st.session.Some? ==> SessionOk(st.disk, st.session.value)))
  {
    FreshInv(disk);
    var st := Run(disk.files, Fresh(disk), events, l);
    hide Replay, Run, Announces, Verified, SessionOk, Surviving;
    ReplayAt(disk.files, Surviving(st.commits, st.lost), path);
    SurvivorsMade(st.commits, st.lost);
    forall f | f in st.sent && Announces(f)
      ensures exists c :: c in st.commits && c.durable && c.id == f.header.requestId && Verified(c)
    {
      var c :| c in st.commits && c.durable && c.id == f.header.requestId;
      assert Verified(c);
    }
  }

  // ---------------------------------------------------------------------------
  // Files and directories.
  // ---------------------------------------------------------------------------

  lemma TurnClashFree(disk: Disk, s: Session, input: Incoming, l: TransferLimits, os: Os)
    requires s.meta in disk.parts && ClashFree(disk.files)
    ensures ClashFree(Turn(disk, s, input, l, os).disk.files)
  {
    hide Judge, Appended, Finished, ClashFree;
    if input.Arrived? {
      var v := Judge(s, input.frame, l);
      if v.Finish? {
        FinishedClashFree(disk, s, os);
      } else if v.Append? {
        var disk' := if v.restart then SetPart(disk, s.meta, Part([], 0)) else disk;
        AppendedFiles(disk', (if v.restart then Rewound(s) else s).(firstChunk := false), v.data, os);
      }
    }
  }

  lemma AppendedFiles(disk: Disk, s: Session, data: Bytes, os: Os)
    requires s.meta in disk.parts && s.offset + |data| <= s.meta.fileSize
    ensures Appended(disk, s, data, os).disk.files == disk.files
  {
    hide Feed, WriteAt, PutUint;
  }

  lemma FinishedClashFree(disk: Disk, s: Session, os: Os)
    requires s.meta in disk.parts && ClashFree(disk.files)
    ensures ClashFree(Finished(disk, s, os).disk.files)
  {
    hide InTheWay, ClashFree;
    if !InTheWay(disk.files, s.meta.filename) {
      PutKeepsClashFree(disk.files, s.meta.filename, disk.parts[s.meta].content);
    }
  }

  lemma TornClashFree(disk: Disk, s: Session, input: Incoming, l: TransferLimits, spot: Spot)
    requires s.meta in disk.parts && ClashFree(disk.files)
    ensures ClashFree(Torn(disk, s, input, l, spot).0.files)
  {
    hide Judge, WriteAt, InTheWay, ClashFree;
    var path, content := s.meta.filename, disk.parts[s.meta].content;
    if !InTheWay(disk.files, path) {
      PutKeepsClashFree(disk.files, path, content);
    }
  }

  /** Only files that were there, or that one of the commits put there. */
  lemma {:induction false} ReplayKeys(files: map<Path, Bytes>, commits: seq<Commit>)
    ensures forall p :: p in Replay(files, commits) <==> p in files || exists c :: c in commits && c.meta.filename == p
    decreases |commits|
  {
    if commits != [] {
      ReplayKeys(files[commits[0].meta.filename := commits[0].content], commits[1..]);
      assert commits[0] in commits;
      assert forall c :: c in commits <==> c == commits[0] || c in commits[1..];
    }
  }

  /** What power loss undoes only takes paths away. */
  lemma LossTakesAway(files: map<Path, Bytes>, commits: seq<Commit>, lost: set<nat>, lost': set<nat>)
    requires lost <= lost' && ClashFree(Replay(files, Surviving(commits, lost)))
    ensures ClashFree(Replay(files, Surviving(commits, lost')))
  {
    hide Replay, Above, Surviving;
    FewerSurvive(commits, lost, lost');
    ReplayKeys(files, Surviving(commits, lost));
    ReplayKeys(files, Surviving(commits, lost'));
  }

  lemma {:induction false} FewerSurvive(commits: seq<Commit>, lost: set<nat>, lost': set<nat>)
    requires lost <= lost'
    ensures forall c :: c in Surviving(commits, lost') ==> c in Surviving(commits, lost)
  {
    if commits != [] {
      FewerSurvive(commits[..|commits| - 1], lost, lost');
    }
  }

  lemma NextClashFree(files: map<Path, Bytes>, st: State, ev: Event, l: TransferLimits)
    requires Inv(files, st) && ClashFree(st.disk.files)
    ensures ClashFree(Next(st, ev, l).disk.files)
  {
    hide Begin, Turn, Torn, TornOpening, Replay, Surviving, Verified, Announces, DecodeMetadata, ClashFree, Backed;
    match ev
    case Request(f, os) =>
      BeginFiles(st.disk, f, l, os);
    case Input(input, os) =>
      if st.session.Some? {
        TurnClashFree(st.disk, st.session.value, input, l, os);
      }
    case KillOpening(f, truncated) =>
      TornOpeningKeeps(st.disk, f, l, truncated);
    case Kill(input, spot) =>
      if st.session.Some? {
        TornClashFree(st.disk, st.session.value, input, l, spot);
      }
    case PowerLoss(parts, lost) =>
      if Survives(st, parts, lost) {
        LossTakesAway(files, st.commits, st.lost, lost);
      }
  }

  lemma BeginFiles(disk: Disk, f: Frame, l: TransferLimits, os: OpenOs)
    ensures Begin(disk, f, l, os).disk.files == disk.files
  {
    hide DecodeMetadata, Feed, Admits, Blocked, ReadsBack;
  }

  /** In every run the committed paths stay those of a file system: no file where another needs a directory. */
  lemma {:induction false} EveryRunStaysClashFree(files: map<Path, Bytes>, st: State, events: seq<Event>,
                                                  l: TransferLimits)
    requires Inv(files, st) && ClashFree(st.disk.files)
    ensures ClashFree(Run(files, st, events, l).disk.files)
    decreases |events|
  {
    hide Next, Replay, Verified, Backed, Surviving, ClashFree;
    if events != [] {
      NextKeeps(files, st, events[0], l);
      NextClashFree(files, st, events[0], l);
      EveryRunStaysClashFree(files, Next(st, events[0], l), events[1..], l);
    }
  }

  // ---------------------------------------------------------------------------
  // Durable commits.
  // ---------------------------------------------------------------------------

  /** The path holds what the commit at `j` put there. */
  ghost predicate Shows(st: State, j: nat, path: Path)
  {
    && j < |st.commits| && st.commits[j].meta.filename == path && Verified(st.commits[j])
    && path in st.disk.files && st.disk.files[path] == st.commits[j].content
  }

  /** After the surviving commits, the path of any of them holds its content or a later one's. */
  lemma {:induction false} SurvivorHolds(files: map<Path, Bytes>, commits: seq<Commit>, lost: set<nat>, i: nat)
    returns (j: nat)
    requires i < |commits| && i !in lost
    ensures i <= j < |commits| && commits[j].meta.filename == commits[i].meta.filename
    ensures var files' := Replay(files, Surviving(commits, lost));
      commits[j].meta.filename in files' && files'[commits[j].meta.filename] == commits[j].content
    decreases |commits|
  {
    var n := |commits| - 1;
    var kept := Surviving(commits[..n], lost);
    if n in lost {
      j := SurvivorHolds(files, commits[..n], lost, i);
      assert kept + [] == kept;
    } else {
      ReplayAppend(files, kept, [commits[n]]);
      assert [commits[n]][1..] == [];
      assert Replay(files, kept + [commits[n]]) == Replay(files, kept)[commits[n].meta.filename := commits[n].content];
      if commits[n].meta.filename == commits[i].meta.filename {
        j := n;
      } else {
        j := SurvivorHolds(files, commits[..n], lost, i);
      }
    }
  }

  lemma NextExtends(st: State, ev: Event, l: TransferLimits)
    requires st.session.Some? ==> st.session.value.meta in st.disk.parts
    ensures st.commits <= Next(st, ev, l).commits
  {
    hide Begin, Turn, Torn, TornOpening, Survives, Replay;
  }

  lemma {:induction false} RunExtends(files: map<Path, Bytes>, st: State, events: seq<Event>, l: TransferLimits)
    requires Inv(files, st)
    ensures st.commits <= Run(files, st, events, l).commits
    decreases |events|
  {
    hide Next, Replay, Verified, Backed, Surviving;
    if events != [] {
      NextKeeps(files, st, events[0], l);
      NextExtends(st, events[0], l);
      RunExtends(files, Next(st, events[0], l), events[1..], l);
    }
  }

  /**
   * Once both directories have been synchronised, a commit outlives everything: through any later
   * sessions, failures, kills and power losses its path holds its content, or a later commit's.
   */
  lemma DurableCommitStays(files: map<Path, Bytes>, st: State, events: seq<Event>, l: TransferLimits, i: nat)
    requires Inv(files, st) && i < |st.commits| && st.commits[i].durable
    ensures var st' := Run(files, st, events, l);
      && i < |st'.commits| && st'.commits[i] == st.commits[i]
      && exists j :: i <= j && Shows(st', j, st.commits[i].meta.filename)
  {
    hide Run, Replay, Verified, Backed, Surviving;
    RunExtends(files, st, events, l);
    var st' := Run(files, st, events, l);
    var j := SurvivorHolds(files, st'.commits, st'.lost, i);
    assert st'.commits[j] in st'.commits;
    assert Shows(st', j, st.commits[i].meta.filename);
  }

  /** The synchronisation is what it takes: power loss can undo the last commit as long as it is not durable. */
  lemma UnsynchronisedCommitCanBeLost(files: map<Path, Bytes>, st: State, l: TransferLimits)
    requires Inv(files, st) && st.commits != [] && !st.commits[|st.commits| - 1].durable
    ensures var n := |st.commits| - 1;
      var st' := Next(st, PowerLoss(st.disk.parts, st.lost + {n}), l);
      st'.lost == st.lost + {n} && st'.disk.files == Replay(files, Surviving(st.commits[..n], st.lost))
  {
    hide Replay, Verified, Backed;
    var n := |st.commits| - 1;
    LaterLoss(st.commits[..n], st.lost, n);
    assert Surviving(st.commits, st.lost + {n}) == Surviving(st.commits[..n], st.lost + {n});
  }

  lemma {:induction false} LaterLoss(commits: seq<Commit>, lost: set<nat>, n: nat)
    requires |commits| <= n
    ensures Surviving(commits, lost + {n}) == Surviving(commits, lost)
  {
    if commits != [] {
      LaterLoss(commits[..|commits| - 1], lost, n);
    }
  }

  /** The converse does not hold: a durable commit whose report cannot be sent is never announced. */
  lemma CommitMayGoUnreported(disk: Disk, s: Session, f: Frame, l: TransferLimits)
    requires SessionOk(disk, s) && Judge(s, f, l) == Finish && !InTheWay(disk.files, s.meta.filename)
    ensures var r := Turn(disk, s, Arrived(f), l, HEALTHY.(sends := false));
      && r.commits == [Commit(s.meta, s.id, disk.parts[s.meta].content, true)]
      && r.sent == [] && r.phase == Closed(FrameIoError)
  {
    hide Judge, Feed;
  }

  // ---------------------------------------------------------------------------
  // The budget, over every run of serialised sessions with kills at any point.
  // ---------------------------------------------------------------------------

  /** The store is within its limits, and an open transfer has room to grow to its declared size. */
  ghost predicate BudgetOk(st: State, l: TransferLimits)
  {
    && InBudget(st.disk.parts, l)
    && (st.session.Some? ==> Admits(st.disk.parts, st.session.value.meta, l))
  }

  /** Changing only an admitted part, within its declared size, keeps the budget. */
  lemma StepBudget(parts: Parts, parts': Parts, m: UploadMetadata, l: TransferLimits)
    requires Admits(parts, m, l) && parts' - {m} == parts - {m}
    requires m in parts' ==> |parts'[m].content| <= m.fileSize
    ensures InBudget(parts', l) && Admits(parts', m, l)
  {
    hide TotalBytes;
    if m in parts' {
      assert parts' == parts[m := parts'[m]] by { MapsEqual(parts, parts', m); }
      AdmittedStaysInBudget(parts, m, parts'[m], l);
    } else {
      assert parts' == parts - {m} by { assert parts' - {m} == parts'; }
      AdmittedWithout(parts, m, l);
    }
  }

  lemma MapsEqual(parts: Parts, parts': Parts, m: UploadMetadata)
    requires m in parts' && parts' - {m} == parts - {m}
    ensures parts' == parts[m := parts'[m]]
  {
    forall k
      ensures k in parts' <==> k in parts[m := parts'[m]]
    {
      assert k != m ==> (k in parts' <==> k in parts' - {m}) && (k in parts <==> k in parts - {m});
    }
    forall k | k in parts'
      ensures parts'[k] == parts[m := parts'[m]][k]
    {
      assert k != m ==> parts'[k] == (parts' - {m})[k] == (parts - {m})[k];
    }
  }

  lemma NextBudget(files: map<Path, Bytes>, st: State, ev: Event, l: TransferLimits)
    requires Inv(files, st) && BudgetOk(st, l) && !ev.PowerLoss?
    ensures BudgetOk(Next(st, ev, l), l)
  {
    hide Begin, Turn, Torn, TornOpening, InBudget, Admits, DecodeMetadata, Replay, Verified, Announces;
    match ev
    case Request(f, os) =>
      if st.session.None? {
        BeginKeeps(st.disk, f, l, os);
        var r, decoded := Begin(st.disk, f, l, os), DecodeMetadata(f.payload);
        if r.disk != st.disk || r.phase.Open? {
          StepBudget(st.disk.parts, r.disk.parts, decoded.value, l);
        }
      }
    case Input(input, os) =>
      if st.session.Some? {
        var s := st.session.value;
        TurnKeeps(st.disk, s, input, l, os);
        StepBudget(st.disk.parts, Turn(st.disk, s, input, l, os).disk.parts, s.meta, l);
      }
    case KillOpening(f, truncated) =>
      TornOpeningKeeps(st.disk, f, l, truncated);
      var disk' := TornOpening(st.disk, f, l, truncated);
      if st.session.None? && disk' != st.disk {
        StepBudget(st.disk.parts, disk'.parts, DecodeMetadata(f.payload).value, l);
      }
    case Kill(input, spot) =>
      if st.session.Some? {
        var s := st.session.value;
        TornKeeps(st.disk, s, input, l, spot);
        StepBudget(st.disk.parts, Torn(st.disk, s, input, l, spot).0.parts, s.meta, l);
      }
  }

  /** Over any number of sessions, failures and process kills the partial store stays within both limits. */
  lemma {:induction false} EveryRunInBudget(files: map<Path, Bytes>, st: State, events: seq<Event>, l: TransferLimits)
    requires Inv(files, st) && BudgetOk(st, l)
    requires forall ev :: ev in events ==> !ev.PowerLoss?
    ensures BudgetOk(Run(files, st, events, l), l)
    decreases |events|
  {
    hide BudgetOk, Next, Replay, Verified, Backed;
    if events != [] {
      NextKeeps(files, st, events[0], l);
      NextBudget(files, st, events[0], l);
      EveryRunInBudget(files, Next(st, events[0], l), events[1..], l);
    }
  }

  // ---------------------------------------------------------------------------
  // Acknowledged bytes.
  // ---------------------------------------------------------------------------

  /** The synchronised prefix of a part is still there, and still synchronised. */
  ghost predicate Kept(parts: Parts, parts': Parts, k: UploadMetadata)
  {
    k in parts && parts[k].synced <= |parts[k].content| ==>
      && (0 < parts[k].synced ==> k in parts')
      && (k in parts' ==>
            && parts[k].synced <= parts'[k].synced && parts[k].synced <= |parts'[k].content|
            && parts'[k].content[..parts[k].synced] == parts[k].content[..parts[k].synced])
  }

  /**
   * The events that give up a saved part: a restart at zero (asked for by the client, or because
   * the saved content is too long), a commit, a terminal refusal, or a failing storage call.
   */
  ghost predicate GivesUp(st: State, ev: Event, k: UploadMetadata, l: TransferLimits)
    requires st.session.Some? ==> st.session.value.meta in st.disk.parts
  {
    match ev
    case Request(f, os) =>
      && st.session.None? && DecodeMetadata(f.payload) == Ok(k) && k in st.disk.parts
      && (Oversized(st.disk, k) || (!os.sends && !os.syncs))
    case Input(input, os) =>
      && st.session.Some? && st.session.value.meta == k
      && if input.Failed? then input.io == Malformed || !os.syncs
         else var v := Judge(st.session.value, input.frame, l);
              !v.Append? || v.restart || !os.writes || !os.syncs || (!os.sends && !os.syncsAgain)
    case KillOpening(f, truncated) =>
      st.session.None? && DecodeMetadata(f.payload) == Ok(k) && k in st.disk.parts && Oversized(st.disk, k)
    case Kill(input, spot) =>
      && st.session.Some? && st.session.value.meta == k
      && (spot.AfterUnlink? ||
          (input.Arrived? &&
           var v := Judge(st.session.value, input.frame, l); v.Finish? || v.restart))
    case PowerLoss(_, _) => false
  }

  lemma OtherPartKept(parts: Parts, parts': Parts, m: UploadMetadata, k: UploadMetadata)
    requires parts' - {m} == parts - {m} && k != m
    ensures Kept(parts, parts', k)
  {
    if k in parts {
      assert k in parts - {m};
      assert k in parts' && parts'[k] == (parts' - {m})[k] == (parts - {m})[k];
    }
  }

  lemma NextKeepsSynced(files: map<Path, Bytes>, st: State, ev: Event, k: UploadMetadata, l: TransferLimits)
    requires Inv(files, st) && !GivesUp(st, ev, k, l)
    ensures Kept(st.disk.parts, Next(st, ev, l).disk.parts, k)
  {
    hide Feed, DecodeMetadata, Admits, Replay, Verified, Announces, Kept, Begin, Turn, Torn, TornOpening;
    KeptSame(st.disk.parts, k);
    match ev
    case Request(f, os) =>
      if st.session.None? {
        BeginKeeps(st.disk, f, l, os);
        var r, decoded := Begin(st.disk, f, l, os), DecodeMetadata(f.payload);
        if decoded.Ok? && decoded.value != k {
          OtherPartKept(st.disk.parts, r.disk.parts, decoded.value, k);
        } else if decoded.Ok? {
          BeginKeepsSynced(st.disk, f, l, os, k);
        }
      }
    case Input(input, os) =>
      if st.session.Some? {
        var s := st.session.value;
        if s.meta != k {
          TurnKeeps(st.disk, s, input, l, os);
          OtherPartKept(st.disk.parts, Turn(st.disk, s, input, l, os).disk.parts, s.meta, k);
        } else {
          TurnKeepsSynced(st.disk, s, input, l, os);
        }
      }
    case KillOpening(f, truncated) =>
      if st.session.None? {
        var decoded := DecodeMetadata(f.payload);
        var disk' := TornOpening(st.disk, f, l, truncated);
        TornOpeningKeeps(st.disk, f, l, truncated);
        if decoded.Ok? && decoded.value != k && disk' != st.disk {
          OtherPartKept(st.disk.parts, disk'.parts, decoded.value, k);
        } else if decoded.Ok? && decoded.value == k {
          TornOpeningKeepsSynced(st.disk, f, l, truncated, k);
        }
      }
    case Kill(input, spot) =>
      if st.session.Some? {
        var s := st.session.value;
        var disk' := Torn(st.disk, s, input, l, spot).0;
        if s.meta != k {
          TornKeeps(st.disk, s, input, l, spot);
          OtherPartKept(st.disk.parts, disk'.parts, s.meta, k);
        } else {
          TornKeepsSynced(st.disk, s, input, l, spot);
        }
      }
    case PowerLoss(parts, lost) =>
      if Survives(st, parts, lost) {
        SurvivorsKept(st, parts, lost, k);
      }
  }

  lemma KeptSame(parts: Parts, k: UploadMetadata)
    ensures Kept(parts, parts, k)
  {
  }

  lemma SurvivorsKept(st: State, parts': Parts, lost: set<nat>, k: UploadMetadata)
    requires PartsOk(st.disk.parts) && Survives(st, parts', lost)
    ensures Kept(st.disk.parts, parts', k)
  {
  }

  lemma BeginKeepsSynced(disk: Disk, f: Frame, l: TransferLimits, os: OpenOs, k: UploadMetadata)
    requires PartsOk(disk.parts) && DecodeMetadata(f.payload) == Ok(k)
    requires k in disk.parts ==> !Oversized(disk, k) && (os.sends || os.syncs)
    ensures Kept(disk.parts, Begin(disk, f, l, os).disk.parts, k)
  {
    hide DecodeMetadata, Admits, Feed;
  }

  lemma TornOpeningKeepsSynced(disk: Disk, f: Frame, l: TransferLimits, truncated: bool, k: UploadMetadata)
    requires PartsOk(disk.parts) && DecodeMetadata(f.payload) == Ok(k)
    requires k in disk.parts ==> !Oversized(disk, k)
    ensures Kept(disk.parts, TornOpening(disk, f, l, truncated).parts, k)
  {
    hide DecodeMetadata, Admits;
  }

  lemma TurnKeepsSynced(disk: Disk, s: Session, input: Incoming, l: TransferLimits, os: Os)
    requires PartsOk(disk.parts) && SessionOk(disk, s)
    requires if input.Failed? then input.io != Malformed && os.syncs
      else
        var v := Judge(s, input.frame, l);
        v.Append? && !v.restart && os.writes && os.syncs && (os.sends || os.syncsAgain)
    ensures Kept(disk.parts, Turn(disk, s, input, l, os).disk.parts, s.meta)
  {
    hide Feed, Judge, PutUint;
    if input.Arrived? {
      var part := disk.parts[s.meta];
      WriteAtEnd(part.content, Judge(s, input.frame, l).data);
    }
  }

  lemma TornKeepsSynced(disk: Disk, s: Session, input: Incoming, l: TransferLimits, spot: Spot)
    requires PartsOk(disk.parts) && SessionOk(disk, s)
    requires !spot.AfterUnlink? && (input.Arrived? ==> var v := Judge(s, input.frame, l); !v.Finish? && !v.restart)
    ensures Kept(disk.parts, Torn(disk, s, input, l, spot).0.parts, s.meta)
  {
    hide Judge, Feed;
    if input.Arrived? && spot.AfterWriting? {
      var v := Judge(s, input.frame, l);
      if v.Append? {
        WriteAtEnd(disk.parts[s.meta].content, if spot.n < |v.data| then v.data[..spot.n] else v.data);
      }
    }
  }

  /** No event of the run gives the part up. */
  ghost predicate NeverGivesUp(files: map<Path, Bytes>, st: State, events: seq<Event>, k: UploadMetadata,
                               l: TransferLimits)
    requires Inv(files, st)
    decreases |events|
  {
    NextAlways(files, st, l);
    events != [] ==>
      !GivesUp(st, events[0], k, l) && NeverGivesUp(files, Next(st, events[0], l), events[1..], k, l)
  }

  lemma NextAlways(files: map<Path, Bytes>, st: State, l: TransferLimits)
    requires Inv(files, st)
    ensures forall ev :: Inv(files, Next(st, ev, l))
  {
    forall ev
      ensures Inv(files, Next(st, ev, l))
    {
      NextKeeps(files, st, ev, l);
    }
  }

  lemma {:induction false} SyncedOverRun(files: map<Path, Bytes>, st: State, events: seq<Event>, k: UploadMetadata,
                                         l: TransferLimits)
    requires Inv(files, st) && NeverGivesUp(files, st, events, k, l)
    requires k in st.disk.parts && 0 < st.disk.parts[k].synced
    ensures var part := st.disk.parts[k];
      var st' := Run(files, st, events, l);
      && k in st'.disk.parts
      && part.synced <= st'.disk.parts[k].synced
      && part.synced <= |part.content| && part.synced <= |st'.disk.parts[k].content|
      && st'.disk.parts[k].content[..part.synced] == part.content[..part.synced]
    decreases |events|
  {
    hide GivesUp, Next, Replay, Verified, Announces, Backed;
    if events != [] {
      NextKeeps(files, st, events[0], l);
      NextKeepsSynced(files, st, events[0], k, l);
      var next := Next(st, events[0], l);
      SyncedOverRun(files, next, events[1..], k, l);
      var synced, a, b := st.disk.parts[k].synced, next.disk.parts[k], Run(files, st, events, l).disk.parts[k];
      assert b.content[..synced] == b.content[..a.synced][..synced];
      assert a.content[..synced] == a.content[..a.synced][..synced];
    }
  }

  /** An acknowledgment is only sent for bytes that are written and synchronised. */
  lemma AcknowledgedIsSynced(disk: Disk, s: Session, input: Incoming, l: TransferLimits, os: Os, f: Frame)
    requires PartsOk(disk.parts) && SessionOk(disk, s)
    requires f in Turn(disk, s, input, l, os).sent && f.header.messageType == Acknowledgment
    ensures var r := Turn(disk, s, input, l, os);
      && r.phase.Open? && s.meta in r.disk.parts
      && var part := r.disk.parts[s.meta];
         DecodeOffset(f.payload) == Ok(|part.content|) && part.synced == |part.content| && 0 < |part.content|
  {
    hide Feed, Judge, PutUint, WriteAt, EncodeOffset, DecodeOffset, EncodeResult, CodeFor;
    var v := Judge(s, input.frame, l);
    WriteAtEnd(disk.parts[s.meta].content, v.data);
    WriteAtEnd([], v.data);
    OffsetRoundTrip((if v.restart then 0 else s.offset) + |v.data|);
  }

  /**
   * Acknowledged bytes survive: from the turn that acknowledges an offset, through any cuts, kills
   * and power losses that do not give the part up, the part still starts with exactly those bytes.
   */
  lemma AcknowledgedBytesSurvive(files: map<Path, Bytes>, st: State, input: Incoming, os: Os, events: seq<Event>,
                                 l: TransferLimits, f: Frame)
    requires Inv(files, st) && st.session.Some?
    requires var r := Turn(st.disk, st.session.value, input, l, os);
      f in r.sent && f.header.messageType == Acknowledgment
    requires (
      NextKeeps(files, st, Input(input, os), l);
      NeverGivesUp(files, Next(st, Input(input, os), l), events, st.session.value.meta, l))
    ensures (
      NextKeeps(files, st, Input(input, os), l);
      var k, now := st.session.value.meta, Next(st, Input(input, os), l);
      var later := Run(files, now, events, l);
      && DecodeOffset(f.payload).Ok?
      && var acknowledged := DecodeOffset(f.payload).value;
         && k in now.disk.parts && acknowledged == |now.disk.parts[k].content|
         && k in later.disk.parts && acknowledged <= |later.disk.parts[k].content|
         && later.disk.parts[k].content[..acknowledged] == now.disk.parts[k].content)
  {
    hide Turn, Run, NeverGivesUp, DecodeOffset;
    NextKeeps(files, st, Input(input, os), l);
    AcknowledgedIsSynced(st.disk, st.session.value, input, l, os, f);
    var k, now := st.session.value.meta, Next(st, Input(input, os), l);
    SyncedOverRun(files, now, events, k, l);
    assert now.disk.parts[k].content[..now.disk.parts[k].synced] == now.disk.parts[k].content;
  }
}
