/**
 * Directory synchronisation on the server (src/common/directory_sync.cpp, `receive_directory_sync`):
 * which paths a run can change, and when its final check passes.
 */
module SyncRuns {
  import opened Words
  import opened Wire
  import opened Frames
  import opened Paths
  import opened Checksum
  import opened TransferCodec
  import opened PartialStore
  import opened Receiver
  import opened ReceiveFile
  import opened ServerRuns
  import opened Sessions
  import opened Sender
  import opened Completion
  import opened Dialogue
  import SyncCodec
  import Planning
  import Scan
  import Resumption

  datatype SyncStatus =
    | Synced | FrameFailed | ScanFailed | CodecFailed | UploadFailed | BadRequest | BadRequestId
    | WrongRequestId | WrongMessageType | WrongTransferId | PlanMismatch | VerificationFailed | RootFailed
    | Killed // reported by no one: the process was gone

  // ---------------------------------------------------------------------------
  // The uploads of one synchronisation.
  // ---------------------------------------------------------------------------

  /** Where in a session the process was killed: before the offer, or in the turn that follows its rounds. */
  datatype Death = InOpening(truncated: bool) | InTurn(input: Incoming, spot: Spot)

  /** The next frame of the client, and how the session it may start turns out, or ends by a kill. */
  datatype Arrival = Arrival(input: Incoming, sends: bool, os: OpenOs, rounds: seq<Round>, death: Option<Death>)

  /** When the script ends, the peer is gone. */
  function ArrivalAt(arrivals: seq<Arrival>): Arrival
  {
    if arrivals == [] then Arrival(Failed(PeerGone), true, HEALTHY_OPEN, [], None) else arrivals[0]
  }

  function Later(arrivals: seq<Arrival>): seq<Arrival>
  {
    if arrivals == [] then [] else arrivals[1..]
  }

  /** The frame asks for exactly the upload whose turn it is. */
  predicate Planned(f: Frame, id: nat, path: Path)
  {
    && f.header.messageType == UploadRequest && f.header.requestId == id && f.header.transferId == 0
    && DecodeMetadata(f.payload).Ok? && DecodeMetadata(f.payload).value.filename == path
  }

  datatype Progress = Progress(
    disk: Disk,
    failed: Option<SyncStatus>,
    completed: nat,
    commits: seq<Commit>,
    sent: seq<Frame>)

  // ---------------------------------------------------------------------------
  // A session that ends by a kill.
  // ---------------------------------------------------------------------------

  /** The turns before the kill, and what the kill leaves; a transfer that closes before it is just over. */
  ghost function DyingTurns(disk: Disk, s: Session, rounds: seq<Round>, l: TransferLimits, input: Incoming,
                            spot: Spot): (r: Step)
    requires s.meta in disk.parts
    decreases |rounds|
  {
    if rounds == [] then
      var (disk', commits) := Torn(disk, s, input, l, spot);
      Step(disk', Closed(FrameIoError), [], commits)
    else
      var r := Turn(disk, s, rounds[0].input, l, rounds[0].os);
      if r.phase.Closed? then r else
        TurnStays(disk, s, rounds[0].input, l, rounds[0].os);
        FollowedBy(r, DyingTurns(r.disk, r.phase.session, rounds[1..], l, input, spot))
  }

  ghost function DyingSession(disk: Disk, request: Frame, l: TransferLimits, os: OpenOs, rounds: seq<Round>,
                              d: Death): (r: Step)
  {
    if d.InOpening? then Step(TornOpening(disk, request, l, d.truncated), Closed(FrameIoError), [], [])
    else
      var r := Begin(disk, request, l, os);
      if r.phase.Closed? then r else
        BeginStays(disk, request, l, os);
        FollowedBy(r, DyingTurns(r.disk, r.phase.session, rounds, l, d.input, d.spot))
  }

  /** A step that changes files only by verified commits of `m`. */
  ghost predicate Touches(disk: Disk, m: UploadMetadata, r: Step)
  {
    && PartsOk(r.disk.parts) && r.disk.files == Replay(disk.files, r.commits)
    && forall c :: c in r.commits ==> c.meta == m && Verified(c)
  }

  lemma TouchesJoin(disk: Disk, m: UploadMetadata, r: Step, q: Step)
    requires Touches(disk, m, r) && Touches(r.disk, m, q)
    ensures Touches(disk, m, FollowedBy(r, q))
  {
    hide Verified, PartsOk;
    ReplayAppend(disk.files, r.commits, q.commits);
  }

  lemma {:induction false} DyingTurnsTouch(disk: Disk, s: Session, rounds: seq<Round>, l: TransferLimits,
                                           input: Incoming, spot: Spot)
    requires PartsOk(disk.parts) && SessionOk(disk, s)
    ensures Touches(disk, s.meta, DyingTurns(disk, s, rounds, l, input, spot))
    decreases |rounds|
  {
    hide Turn, Torn, Verified, Replay, SessionOk, PartsOk;
    assert s.meta in disk.parts by { Resumption.HeldSession(disk, s); }
    if rounds == [] {
      TornKeeps(disk, s, input, l, spot);
    } else {
      TurnKeeps(disk, s, rounds[0].input, l, rounds[0].os);
      var r := Turn(disk, s, rounds[0].input, l, rounds[0].os);
      if r.phase.Open? {
        TurnStays(disk, s, rounds[0].input, l, rounds[0].os);
        DyingTurnsTouch(r.disk, r.phase.session, rounds[1..], l, input, spot);
        TouchesJoin(disk, s.meta, r, DyingTurns(r.disk, r.phase.session, rounds[1..], l, input, spot));
      }
    }
  }

  lemma DyingTouches(disk: Disk, request: Frame, l: TransferLimits, os: OpenOs, rounds: seq<Round>, d: Death,
                     m: UploadMetadata)
    requires PartsOk(disk.parts) && DecodeMetadata(request.payload) == Ok(m)
    ensures Touches(disk, m, DyingSession(disk, request, l, os, rounds, d))
  {
    hide Begin, TornOpening, DyingTurns, DecodeMetadata, Verified, SessionOk, PartsOk, Admits;
    if d.InOpening? {
      TornOpeningKeeps(disk, request, l, d.truncated);
    } else {
      BeginKeeps(disk, request, l, os);
      var r := Begin(disk, request, l, os);
      if r.phase.Open? {
        BeginStays(disk, request, l, os);
        DyingTurnsTouch(r.disk, r.phase.session, rounds, l, d.input, d.spot);
        TouchesJoin(disk, m, r, DyingTurns(r.disk, r.phase.session, rounds, l, d.input, d.spot));
      }
    }
  }

  // ---------------------------------------------------------------------------
  // The loop.
  // ---------------------------------------------------------------------------

  /** One turn of the loop: the upload whose turn it is, or the end of the synchronisation. */
  ghost function OneUpload(disk: Disk, path: Path, id: nat, a: Arrival, l: TransferLimits): Progress
  {
    if a.input.Failed? then Progress(disk, Some(FrameFailed), 0, [], [])
    else if !Planned(a.input.frame, id, path) then
      var refusal := ResultFrame(a.input.frame.header.requestId, 0, ResultCode.UnexpectedFrame);
      if a.sends then Progress(disk, Some(PlanMismatch), 0, [], [refusal])
      else Progress(disk, Some(FrameFailed), 0, [], [])
    else if a.death.Some? then
      var r := DyingSession(disk, a.input.frame, l, a.os, a.rounds, a.death.value);
      Progress(r.disk, Some(Killed), 0, r.commits, r.sent)
    else
      var r := WholeSession(disk, a.input.frame, l, a.os, a.rounds);
      if r.phase == Closed(Status.Success) then Progress(r.disk, None, 1, r.commits, r.sent)
      else Progress(r.disk, Some(UploadFailed), 0, r.commits, r.sent)
  }

  /** The loop over the planned uploads; `id` is the request ID the next one must carry. */
  ghost function Uploads(disk: Disk, paths: seq<Path>, id: nat, arrivals: seq<Arrival>, l: TransferLimits): Progress
    decreases |paths|
  {
    if paths == [] then Progress(disk, None, 0, [], []) else
      var one := OneUpload(disk, paths[0], id, ArrivalAt(arrivals), l);
      if one.failed.Some? then one
      else
        var rest := Uploads(one.disk, paths[1..], id + 1, Later(arrivals), l);
        Progress(rest.disk, rest.failed, 1 + rest.completed, one.commits + rest.commits, one.sent + rest.sent)
  }

  /** The two trees agree on the path. */
  ghost predicate SameAt(files: map<Path, Bytes>, files': map<Path, Bytes>, path: Path)
  {
    (path in files' <==> path in files) && (path in files ==> files'[path] == files[path])
  }

  lemma SameThroughout(files: map<Path, Bytes>, path: Path)
    ensures SameAt(files, files, path)
    ensures forall files', files'' ::
      SameAt(files, files', path) && SameAt(files', files'', path) ==> SameAt(files, files'', path)
  {
  }

  lemma SessionTouches(disk: Disk, request: Frame, l: TransferLimits, os: OpenOs, rounds: seq<Round>, m: UploadMetadata)
    requires PartsOk(disk.parts) && DecodeMetadata(request.payload) == Ok(m)
    ensures Touches(disk, m, WholeSession(disk, request, l, os, rounds))
  {
    hide WholeSession, DecodeMetadata, Run, Replay, Verified;
    FreshInv(disk);
    SessionIsRun(disk.files, Fresh(disk), request, l, os, rounds);
    var r := WholeSession(disk, request, l, os, rounds);
    assert [] + r.commits == r.commits && [] + r.sent == r.sent;
    AllSurvive(r.commits);
    assert Inv(disk.files, Run(disk.files, Fresh(disk), [Request(request, os)] + Inputs(rounds), l));
    forall c | c in r.commits
      ensures c.meta == m
    {
      if c.meta != m {
        Resumption.ForeignLeaves(disk, request, l, os, rounds, c.meta);
      }
    }
  }

  /** One turn changes no final path but the planned one, and only by verified commits. */
  lemma OneUploadTouches(disk: Disk, path: Path, id: nat, a: Arrival, l: TransferLimits, other: Path)
    requires PartsOk(disk.parts)
    ensures var one := OneUpload(disk, path, id, a, l);
      && PartsOk(one.disk.parts) && one.disk.files == Replay(disk.files, one.commits)
      && (forall c :: c in one.commits ==> c.meta.filename == path && Verified(c))
      && (other != path ==> SameAt(disk.files, one.disk.files, other))
      && (one.failed.Some? ==> one.completed == 0) && (one.failed.None? ==> one.completed == 1)
  {
    hide WholeSession, DyingSession, DecodeMetadata, Verified, PartsOk, ResultFrame;
    var one := OneUpload(disk, path, id, a, l);
    if a.input.Arrived? && Planned(a.input.frame, id, path) {
      var m := DecodeMetadata(a.input.frame.payload).value;
      if a.death.Some? {
        DyingTouches(disk, a.input.frame, l, a.os, a.rounds, a.death.value, m);
      } else {
        SessionTouches(disk, a.input.frame, l, a.os, a.rounds, m);
      }
      ReplayAt(disk.files, one.commits, other);
    }
  }

  /** The paths a run got to: those completed, and the one under way. */
  function Reached(paths: seq<Path>, completed: nat): seq<Path>
  {
    if completed < |paths| then paths[..completed + 1] else paths
  }

  /**
   * Whatever the client does and however the run ends, by a kill of the process too, the destination
   * differs from its start only on a prefix of the planned paths: those completed, and at most the
   * one under way. Every file it changed holds the verified content of one of its commits.
   */
  lemma {:induction false} OnlyPlannedPrefixChanges(disk: Disk, paths: seq<Path>, id: nat, arrivals: seq<Arrival>,
                                                    l: TransferLimits, path: Path)
    requires PartsOk(disk.parts)
    ensures var p := Uploads(disk, paths, id, arrivals, l);
      && p.completed <= |paths| && (p.failed.None? <==> p.completed == |paths|)
      && PartsOk(p.disk.parts) && p.disk.files == Replay(disk.files, p.commits)
      && (forall c :: c in p.commits ==> Verified(c) && c.meta.filename in Reached(paths, p.completed))
      && (path !in Reached(paths, p.completed) ==> SameAt(disk.files, p.disk.files, path))
    decreases |paths|
  {
    hide OneUpload, Verified, PartsOk, SameAt;
    SameThroughout(disk.files, path);
    if paths != [] {
      var one := OneUpload(disk, paths[0], id, ArrivalAt(arrivals), l);
      OneUploadTouches(disk, paths[0], id, ArrivalAt(arrivals), l, path);
      if one.failed.Some? {
        assert Reached(paths, 0) == [paths[0]];
      } else {
        OnlyPlannedPrefixChanges(one.disk, paths[1..], id + 1, Later(arrivals), l, path);
        var rest := Uploads(one.disk, paths[1..], id + 1, Later(arrivals), l);
        ReplayAppend(disk.files, one.commits, rest.commits);
        assert Reached(paths, 1 + rest.completed) == [paths[0]] + Reached(paths[1..], rest.completed);
      }
    }
  }

  // ---------------------------------------------------------------------------
  // An honest client.
  // ---------------------------------------------------------------------------

  /** The upload of one file of the client's tree. */
  function UploadOf(tree: Scan.Tree, path: Path, id: u64, limits: TransferLimits): Upload
    requires path in tree
  {
    Upload(tree[path], path, id, limits)
  }

  /** The client can start every planned upload, with the IDs from `id` on. */
  ghost predicate CanSend(tree: Scan.Tree, paths: seq<Path>, id: nat, limits: TransferLimits)
  {
    && 0 < id && id + |paths| <= U64_LIMIT && ValidLimits(limits)
    && forall i :: 0 <= i < |paths| ==>
         paths[i] in tree && Safe(paths[i]) && |tree[paths[i]]| < U64_LIMIT && |tree[paths[i]]| <= limits.maxFileSize
  }

  function MetaOf(tree: Scan.Tree, path: Path): UploadMetadata
    requires path in tree && |tree[path]| < U64_LIMIT
  {
    CrcRange(tree[path]);
    UploadMetadata(path, |tree[path]|, Crc(tree[path]))
  }

  /** The server has room for every planned upload. */
  ghost predicate CanReceive(tree: Scan.Tree, paths: seq<Path>, parts: Parts, l: TransferLimits)
  {
    && ValidLimits(l)
    && forall i :: 0 <= i < |paths| ==>
         && paths[i] in tree && |tree[paths[i]]| < U64_LIMIT && |tree[paths[i]]| <= l.maxFileSize
         && Admits(parts, MetaOf(tree, paths[i]), l)
  }

  /** What an honest client sends for one upload. */
  ghost function HonestArrival(u: Upload, disk: Disk): Arrival
    requires Startable(u)
  {
    Arrival(Arrived(RequestFrame(u)), true, HEALTHY_OPEN, HonestUpload(u, disk), None)
  }

  /** What an honest client sends for the planned paths; it stops at the first upload that fails. */
  ghost function HonestArrivals(disk: Disk, tree: Scan.Tree, paths: seq<Path>, id: nat,
                                limits: TransferLimits): seq<Arrival>
    requires CanSend(tree, paths, id, limits)
    decreases |paths|
  {
    if paths == [] then [] else
      var u := UploadOf(tree, paths[0], id, limits);
      [HonestArrival(u, disk)]
      + (if InTheWay(disk.files, paths[0]) then []
         else HonestArrivals(FirstLanded(disk, u), tree, paths[1..], id + 1, limits))
  }

  lemma DropTwice(parts: Parts, k: UploadMetadata, m: UploadMetadata)
    ensures parts - {k} - {m} == parts - {m} - {k}
  {
    var a, b := parts - {k} - {m}, parts - {m} - {k};
    assert a.Keys == b.Keys;
    assert forall x :: x in a ==> a[x] == parts[x] && b[x] == parts[x];
  }

  lemma TotalLess(parts: Parts, k: UploadMetadata)
    ensures TotalBytes(parts - {k}) <= TotalBytes(parts) && |parts - {k}| <= |parts|
  {
    hide TotalBytes;
    if k in parts {
      TotalWithout(parts, k);
    } else {
      assert parts - {k} == parts;
    }
  }

  lemma AdmitsLess(parts: Parts, k: UploadMetadata, m: UploadMetadata, l: TransferLimits)
    requires Admits(parts, m, l)
    ensures Admits(parts - {k}, m, l)
  {
    hide TotalBytes;
    DropTwice(parts, k, m);
    TotalLess(parts - {m}, k);
  }

  /** The file at the path has the size and checksum of the source's. */
  ghost predicate MatchesAt(files: map<Path, Bytes>, tree: Scan.Tree, path: Path)
  {
    path in files && path in tree && |files[path]| == |tree[path]| && Crc(files[path]) == Crc(tree[path])
  }

  /** How many of the paths come before the first one with a file or a directory in its way. */
  function Clear(files: map<Path, Bytes>, paths: seq<Path>): (n: nat)
    ensures n <= |paths|
    ensures forall i :: 0 <= i < n ==> !InTheWay(files, paths[i])
    ensures n < |paths| ==> InTheWay(files, paths[n])
    decreases |paths|
  {
    if paths == [] || InTheWay(files, paths[0]) then 0 else 1 + Clear(files, paths[1..])
  }

  /** None of the paths is a directory on the way to another. */
  predicate Separate(paths: seq<Path>)
  {
    forall i, j :: 0 <= i < |paths| && 0 <= j < |paths| ==> !Above(paths[i], paths[j])
  }

  /** A file that lands is in nobody's way. */
  lemma {:induction false} ClearStays(files: map<Path, Bytes>, landed: Path, content: Bytes, paths: seq<Path>)
    requires Separate([landed] + paths)
    ensures Clear(files[landed := content], paths) == Clear(files, paths)
    decreases |paths|
  {
    hide Above;
    if paths != [] {
      var all := [landed] + paths;
      assert all[0] == landed && all[1] == paths[0];
      assert !Above(landed, paths[0]) && !Above(paths[0], landed);
      assert InTheWay(files[landed := content], paths[0]) <==> InTheWay(files, paths[0]);
      var rest := [landed] + paths[1..];
      forall i, j | 0 <= i < |rest| && 0 <= j < |rest|
        ensures !Above(rest[i], rest[j])
      {
        assert rest[i] == all[if i == 0 then 0 else i + 1] && rest[j] == all[if j == 0 then 0 else j + 1];
      }
      ClearStays(files, landed, content, paths[1..]);
    }
  }

  lemma FirstStarts(tree: Scan.Tree, paths: seq<Path>, id: nat, limits: TransferLimits)
    requires paths != [] && CanSend(tree, paths, id, limits)
    ensures paths[0] in tree && id < U64_LIMIT && Startable(UploadOf(tree, paths[0], id, limits))
    ensures CanSend(tree, paths[1..], id + 1, limits)
  {
    hide Safe;
  }

  /** The store after the first planned upload, if nothing is in its way. */
  ghost function FirstLanded(disk: Disk, u: Upload): Disk
    requires Startable(u)
  {
    Landed(u, disk, Expected(Saved(disk.parts, MetadataOf(u)), u.source))
  }

  /** One honest upload: it succeeds unless something is in its way. */
  lemma HonestTurn(disk: Disk, u: Upload, l: TransferLimits)
    requires PartsOk(disk.parts) && Startable(u) && HasRoom(l, disk.parts, MetadataOf(u))
    requires u.limits.chunkSize <= l.chunkSize
    ensures var one := OneUpload(disk, u.filename, u.requestId, HonestArrival(u, disk), l);
      && one.sent == HonestReplies(u, disk)
      && (InTheWay(disk.files, u.filename) ==>
            one.failed == Some(UploadFailed) && one.completed == 0 && one.disk.files == disk.files)
      && (!InTheWay(disk.files, u.filename) ==>
            && one.failed.None? && one.disk == FirstLanded(disk, u)
            && u.filename in one.disk.files && |one.disk.files[u.filename]| == |u.source|
            && Crc(one.disk.files[u.filename]) == Crc(u.source))
  {
    hide Crc, WholeSession, HonestUpload, HonestReplies, Expected, DecodeMetadata, EncodeMetadata, Admits, Safe,
      Blocked, Occupied, PartsOk;
    RequestDecodes(u);
    HonestSession(u, l, disk);
  }

  lemma RoomForFirst(disk: Disk, tree: Scan.Tree, paths: seq<Path>, id: nat, limits: TransferLimits, l: TransferLimits)
    requires paths != [] && CanSend(tree, paths, id, limits) && CanReceive(tree, paths, disk.parts, l)
    ensures paths[0] in tree
    ensures var u := UploadOf(tree, paths[0], id, limits);
      && Startable(u) && HasRoom(l, disk.parts, MetadataOf(u))
      && (PartsOk(disk.parts) ==> PartsOk(FirstLanded(disk, u).parts))
      && CanReceive(tree, paths[1..], FirstLanded(disk, u).parts, l)
  {
    hide Crc, Expected, Admits, Safe;
    var u := UploadOf(tree, paths[0], id, limits);
    forall i | 0 <= i < |paths[1..]|
      ensures Admits(disk.parts - {MetadataOf(u)}, MetaOf(tree, paths[1..][i]), l)
    {
      AdmitsLess(disk.parts, MetadataOf(u), MetaOf(tree, paths[i + 1]), l);
    }
  }

  /** The uploads of an honest client are the first and, if nothing is in its way, those that follow. */
  lemma HonestSplit(disk: Disk, tree: Scan.Tree, paths: seq<Path>, id: nat, limits: TransferLimits, l: TransferLimits)
    requires PartsOk(disk.parts) && CanSend(tree, paths, id, limits) && CanReceive(tree, paths, disk.parts, l)
    requires paths != [] && limits.chunkSize <= l.chunkSize
    ensures (
      FirstStarts(tree, paths, id, limits);
      var u := UploadOf(tree, paths[0], id, limits);
      var p := Uploads(disk, paths, id, HonestArrivals(disk, tree, paths, id, limits), l);
      if InTheWay(disk.files, paths[0]) then
        && p.failed == Some(UploadFailed) && p.completed == 0 && p.disk.files == disk.files
        && p.sent == HonestReplies(u, disk)
      else
        var disk' := FirstLanded(disk, u);
        var q := Uploads(disk', paths[1..], id + 1, HonestArrivals(disk', tree, paths[1..], id + 1, limits), l);
        && p.failed == q.failed && p.completed == 1 + q.completed && p.disk == q.disk
        && p.sent == HonestReplies(u, disk) + q.sent && MatchesAt(disk'.files, tree, paths[0]))
  {
    hide Crc, OneUpload, HonestArrival, HonestReplies, Expected, CanReceive, CanSend, InTheWay, PartsOk;
    FirstStarts(tree, paths, id, limits);
    RoomForFirst(disk, tree, paths, id, limits, l);
    var u := UploadOf(tree, paths[0], id, limits);
    HonestTurn(disk, u, l);
    var arrivals := HonestArrivals(disk, tree, paths, id, limits);
    if InTheWay(disk.files, paths[0]) {
      assert arrivals == [HonestArrival(u, disk)];
    } else {
      var disk' := FirstLanded(disk, u);
      assert arrivals == [HonestArrival(u, disk)] + HonestArrivals(disk', tree, paths[1..], id + 1, limits);
      assert arrivals[1..] == HonestArrivals(disk', tree, paths[1..], id + 1, limits);
    }
  }

  /**
   * With an honest client and no failure the uploads are completed up to the first with something in
   * its way: those paths end up with the source's size and checksum, and no other changes.
   */
  lemma {:induction false} HonestUploads(disk: Disk, tree: Scan.Tree, paths: seq<Path>, id: nat, limits: TransferLimits,
                                         l: TransferLimits, path: Path)
    requires PartsOk(disk.parts) && CanSend(tree, paths, id, limits) && CanReceive(tree, paths, disk.parts, l)
    requires limits.chunkSize <= l.chunkSize && Separate(paths)
    ensures var p := Uploads(disk, paths, id, HonestArrivals(disk, tree, paths, id, limits), l);
      var n := Clear(disk.files, paths);
      && p.completed == n && p.failed == (if n < |paths| then Some(UploadFailed) else None)
      && (if path in paths[..n] then MatchesAt(p.disk.files, tree, path) else SameAt(disk.files, p.disk.files, path))
    decreases |paths|
  {
    hide Crc, CanReceive, CanSend, InTheWay, Separate, PartsOk, FirstLanded, MatchesAt, SameAt, Uploads, HonestArrivals,
      Clear, UploadOf, Startable;
    ClearFirst(disk.files, paths);
    if paths == [] {
      NothingPlanned(disk, tree, id, limits, l);
      SameFiles(disk.files, disk.files, path);
    } else {
      HonestSplit(disk, tree, paths, id, limits, l);
      FirstStarts(tree, paths, id, limits);
      RoomForFirst(disk, tree, paths, id, limits, l);
      if InTheWay(disk.files, paths[0]) {
        var p := Uploads(disk, paths, id, HonestArrivals(disk, tree, paths, id, limits), l);
        assert paths[..0] == [];
        SameFiles(disk.files, p.disk.files, path);
      } else {
        var u := UploadOf(tree, paths[0], id, limits);
        var disk' := FirstLanded(disk, u);
        SeparateTail(paths);
        HonestUploads(disk', tree, paths[1..], id + 1, limits, l, path);
        LandsThere(disk, tree, paths[0], id, limits);
        assert paths == [paths[0]] + paths[1..];
        ClearStays(disk.files, paths[0], disk'.files[paths[0]], paths[1..]);
        var q := Uploads(disk', paths[1..], id + 1, HonestArrivals(disk', tree, paths[1..], id + 1, limits), l);
        LandedFurther(disk.files, disk'.files, q.disk.files, tree, paths, Clear(disk.files, paths[1..]), path);
      }
    }
  }

  lemma NothingPlanned(disk: Disk, tree: Scan.Tree, id: nat, limits: TransferLimits, l: TransferLimits)
    requires CanSend(tree, [], id, limits)
    ensures var p := Uploads(disk, [], id, HonestArrivals(disk, tree, [], id, limits), l);
      p.disk == disk && p.failed.None? && p.completed == 0
  {
  }

  lemma ClearFirst(files: map<Path, Bytes>, paths: seq<Path>)
    ensures Clear(files, paths) == if paths == [] || InTheWay(files, paths[0]) then 0 else 1 + Clear(files, paths[1..])
  {
  }

  lemma LandsThere(disk: Disk, tree: Scan.Tree, path: Path, id: u64, limits: TransferLimits)
    requires path in tree && Startable(UploadOf(tree, path, id, limits))
    ensures var files' := FirstLanded(disk, UploadOf(tree, path, id, limits)).files;
      path in files' && files' == disk.files[path := files'[path]]
  {
    hide Crc, Expected;
  }

  lemma SameFiles(files: map<Path, Bytes>, files': map<Path, Bytes>, path: Path)
    requires files' == files
    ensures SameAt(files, files', path)
  {
  }

  lemma LandedFurther(files: map<Path, Bytes>, files': map<Path, Bytes>, files'': map<Path, Bytes>, tree: Scan.Tree,
                      paths: seq<Path>, n: nat, path: Path)
    requires paths != [] && n <= |paths[1..]|
    requires paths[0] in files' && files' == files[paths[0] := files'[paths[0]]] && MatchesAt(files', tree, paths[0])
    requires if path in paths[1..][..n] then MatchesAt(files'', tree, path) else SameAt(files', files'', path)
    ensures if path in paths[..1 + n] then MatchesAt(files'', tree, path) else SameAt(files, files'', path)
  {
    hide Crc;
    assert paths[..1 + n] == [paths[0]] + paths[1..][..n];
  }

  lemma SeparateTail(paths: seq<Path>)
    requires paths != [] && Separate(paths)
    ensures Separate(paths[1..])
  {
  }

  lemma ManifestsSorted(m: SyncCodec.Manifest, tree: Scan.Tree)
    requires Scan.ManifestOf(m, tree)
    ensures Planning.Sorted(m)
  {
  }

  /** A record is in the new manifest exactly if it was in the old one or its path was uploaded. */
  lemma RecordLands(files: Scan.Tree, files': Scan.Tree, tree: Scan.Tree, source: SyncCodec.Manifest,
                    before: SyncCodec.Manifest, after: SyncCodec.Manifest, done: seq<Path>, r: SyncCodec.FileRecord)
    requires Scan.ManifestOf(source, tree) && Scan.ManifestOf(before, files) && Scan.ManifestOf(after, files')
    requires r in source
    requires if r.path in done then MatchesAt(files', tree, r.path) else SameAt(files, files', r.path)
    ensures r in after <==> r in before || r.path in done
  {
    hide Crc, Scan.ManifestOf;
    Scan.ManifestMembership(source, tree, r);
    Scan.ManifestMembership(before, files, r);
    Scan.ManifestMembership(after, files', r);
  }
}
