/** Directory synchronisation as the code of both sides (src/common/directory_sync.cpp). */
module DirectorySync {
  import opened Words
  import opened Wire
  import opened Frames
  import opened Paths
  import opened Checksum
  import opened TransferCodec
  import opened PartialStore
  import opened Receiver
  import opened ReceiveFile
  import opened ServerRuns
  import opened Sender
  import opened SyncRuns
  import SyncCodec
  import Planning
  import Scan

  type Manifest = SyncCodec.Manifest

  datatype SyncLimits = SyncLimits(scan: Scan.ScanLimits, transfer: TransferLimits)

  const DEFAULTS: SyncLimits := SyncLimits(Scan.DEFAULT_LIMITS, DEFAULT_TRANSFER)

  // ---------------------------------------------------------------------------
  // Listings and lookups.
  // ---------------------------------------------------------------------------

  /** The partial directory, entry by entry. */
  method ListParts(parts: Parts) returns (entries: seq<DirEntry>)
    ensures Lists(entries, parts)
  {
    entries := [];
    var left := parts.Keys;
    while left != {}
      invariant left <= parts.Keys
      invariant forall e :: e in entries ==>
        e.PartFile? && e.key in parts && e.key !in left && e.size == |parts[e.key].content|
      invariant forall i, j :: 0 <= i < j < |entries| && entries[i].PartFile? && entries[j].PartFile? ==>
        entries[i].key != entries[j].key
      invariant forall k :: k in parts && k !in left ==>
        exists i :: 0 <= i < |entries| && entries[i].PartFile? && entries[i].key == k
      decreases |left|
    {
      var key :| key in left;
      ghost var before := entries;
      entries := entries + [PartFile(key, |parts[key].content|)];
      left := left - {key};
      forall k | k in parts && k !in left
        ensures exists i :: 0 <= i < |entries| && entries[i].PartFile? && entries[i].key == k
      {
        if k == key {
          assert entries[|before|].PartFile? && entries[|before|].key == k;
        } else {
          var i :| 0 <= i < |before| && before[i].PartFile? && before[i].key == k;
          assert entries[i].PartFile? && entries[i].key == k;
        }
      }
    }
  }

  /** Every file is short enough for its size to be a 64-bit number. */
  ghost predicate Sized(files: map<Path, Bytes>)
  {
    forall p :: p in files ==> |files[p]| < U64_LIMIT
  }

  /** The regular files below the root, in the order the iterator meets them. */
  method ListFiles(files: map<Path, Bytes>) returns (listing: seq<Scan.DiskFile>)
    requires Sized(files)
    ensures Scan.Enumerates(listing, files)
  {
    listing := [];
    var left := files.Keys;
    while left != {}
      invariant left <= files.Keys
      invariant forall f :: f in listing ==>
        f.path in files && f.path !in left && files[f.path] == f.content && |f.content| < U64_LIMIT
      invariant forall i, j :: 0 <= i < j < |listing| ==> listing[i].path != listing[j].path
      invariant forall p :: p in files && p !in left ==> exists i :: 0 <= i < |listing| && listing[i].path == p
      decreases |left|
    {
      var path :| path in left;
      ghost var before := listing;
      listing := listing + [Scan.DiskFile(path, files[path])];
      left := left - {path};
      forall p | p in files && p !in left
        ensures exists i :: 0 <= i < |listing| && listing[i].path == p
      {
        if p == path {
          assert listing[|before|].path == p;
        } else {
          var i :| 0 <= i < |before| && before[i].path == p;
          assert listing[i].path == p;
        }
      }
    }
  }

  /** Scanning a tree yields its manifest exactly if it is within the limits. */
  method ScanTree(files: map<Path, Bytes>, unreadable: set<Path>, limits: Scan.ScanLimits)
    returns (r: Result<Manifest, Scan.ScanError>)
    requires Sized(files)
    ensures r.Ok? <==> Scan.TreeScans(files, unreadable, limits)
    ensures r.Ok? ==> Scan.ManifestOf(r.value, files)
  {
    hide Scan.Scannable, Scan.ManifestOf, Scan.TreeScans;
    var found := ListFiles(files);
    Scan.AnyOrderScans(found, files, unreadable, limits);
    r := Scan.ScanDirectory(found, unreadable, limits);
    if r.Ok? {
      Scan.ScanDescribesTree(found, files, r.value);
    }
  }

  /** `find_file`: a binary search for the first record that is not before the path. */
  method FindFile(files: Manifest, path: Path) returns (found: Option<SyncCodec.FileRecord>)
    requires Planning.Sorted(files)
    ensures found.Some? <==> Planning.HasPath(files, path)
    ensures found.Some? ==> found.value in files && found.value.path == path
  {
    var low, high := 0, |files|;
    while low < high
      invariant 0 <= low <= high <= |files|
      invariant forall i :: 0 <= i < low ==> Less(files[i].path, path)
      invariant forall i :: high <= i < |files| ==> !Less(files[i].path, path)
    {
      var middle := (low + high) / 2;
      if Less(files[middle].path, path) {
        forall i | 0 <= i < middle
          ensures Less(files[i].path, path)
        {
          LessTransitive(files[i].path, files[middle].path, path);
        }
        low := middle + 1;
      } else {
        forall i | middle < i < |files|
          ensures !Less(files[i].path, path)
        {
          if Less(files[i].path, path) {
            LessTransitive(files[middle].path, files[i].path, path);
          }
        }
        high := middle;
      }
    }
    LessIrreflexive(path);
    assert forall k :: low < k < |files| ==> Less(files[low].path, files[k].path);
    assert forall k :: 0 <= k < |files| && files[k].path == path ==> k == low;
    if low == |files| || files[low].path != path {
      return None;
    }
    return Some(files[low]);
  }

  // ---------------------------------------------------------------------------
  // The server.
  // ---------------------------------------------------------------------------

  datatype ResultOfSync = SyncSuccess | DestinationChanged

  function EncodeSyncResult(code: ResultOfSync): Bytes
  {
    if code == SyncSuccess then [0] else [1]
  }

  function DecodeSyncResult(payload: Bytes): (r: Result<ResultOfSync, SyncCodec.SyncCodecError>)
    ensures r.Ok? <==> |payload| == 1 && payload[0] <= 1
    ensures r.Ok? ==> EncodeSyncResult(r.value) == payload
  {
    if |payload| != 1 then Err(SyncCodec.PayloadSizeMismatch)
    else if payload[0] > 1 then Err(SyncCodec.UnknownSyncResult)
    else Ok(if payload[0] == 0 then SyncSuccess else DestinationChanged)
  }

  /** `receive_control_frame`: what is wrong with the frame, if anything. */
  function ControlFailure(input: Incoming, t: MessageType, id: u64): Option<SyncStatus>
  {
    if input.Failed? then Some(FrameFailed)
    else if input.frame.header.requestId != id then Some(WrongRequestId)
    else if input.frame.header.transferId != 0 then Some(WrongTransferId)
    else if input.frame.header.messageType != t then Some(WrongMessageType)
    else None
  }

  /** One turn of the loop over the planned uploads. */
  method ReceivePlanned(store: Store, path: Path, expected: u64, a: Arrival, l: TransferLimits)
    returns (failed: Option<SyncStatus>, sent: seq<Frame>)
    requires a.death.None?
    modifies store
    ensures var p := OneUpload(old(store.View()), path, expected, a, l);
      store.View() == p.disk && failed == p.failed && sent == p.sent
    ensures failed != Some(Synced)
  {
    hide WholeSession, Planned, Regular;
    if a.input.Failed? {
      return Some(FrameFailed), [];
    }
    var request := a.input.frame;
    if !Planned(request, expected, path) {
      if !a.sends {
        return Some(FrameFailed), [];
      }
      return Some(PlanMismatch), [ResultFrame(request.header.requestId, 0, ResultCode.UnexpectedFrame)];
    }
    var entries := ListParts(store.parts);
    TidyRegular(entries);
    BrokenOff(entries);
    if !a.os.tidy {
      entries := entries + [Unreadable];
    }
    var final, more, commits := ReceiveFile.ReceiveFile(store, request, l, a.os, entries, a.rounds);
    if final != Status.Success {
      return Some(UploadFailed), more;
    }
    return None, more;
  }

  /** The planned uploads, one session after another; their IDs follow the synchronisation's own. */
  method ReceiveUploads(store: Store, paths: seq<Path>, id: u64, arrivals: seq<Arrival>, l: TransferLimits)
    returns (failed: Option<SyncStatus>, completed: nat, sent: seq<Frame>)
    requires id + |paths| < U64_LIMIT && forall a :: a in arrivals ==> a.death.None?
    modifies store
    ensures var p := Uploads(old(store.View()), paths, id + 1, arrivals, l);
      store.View() == p.disk && failed == p.failed && completed == p.completed && sent == p.sent
    ensures failed != Some(Synced)
  {
    hide OneUpload;
    ghost var whole := Uploads(store.View(), paths, id + 1, arrivals, l);
    var left := arrivals;
    completed, sent := 0, [];
    assert paths[0..] == paths;
    for index := 0 to |paths|
      invariant completed == index
      invariant forall a :: a in left ==> a.death.None?
      invariant var p := Uploads(store.View(), paths[index..], id + index + 1, left, l);
        && whole.disk == p.disk && whole.failed == p.failed
        && whole.completed == index + p.completed && whole.sent == sent + p.sent
    {
      assert paths[index..][0] == paths[index] && paths[index..][1..] == paths[index + 1..];
      NoUploadNoCompletion(store.View(), paths[index], id + index + 1, ArrivalAt(left), l);
      var more;
      failed, more := ReceivePlanned(store, paths[index], id + index + 1, ArrivalAt(left), l);
      ghost var before := sent;
      sent := sent + more;
      if failed.Some? {
        return failed, completed, sent;
      }
      completed, left := completed + 1, Later(left);
      ghost var rest := Uploads(store.View(), paths[index + 1..], id + index + 2, left, l);
      assert before + (more + rest.sent) == sent + rest.sent;
    }
    assert paths[|paths|..] == [];
    failed := None;
  }

  lemma NoUploadNoCompletion(disk: Disk, path: Path, id: nat, a: Arrival, l: TransferLimits)
    ensures var p := OneUpload(disk, path, id, a, l); p.failed.Some? ==> p.completed == 0
  {
    hide WholeSession, DyingSession, Planned;
  }

  lemma StaysSized(disk: Disk, paths: seq<Path>, id: nat, arrivals: seq<Arrival>, l: TransferLimits)
    requires PartsOk(disk.parts) && Sized(disk.files)
    ensures Sized(Uploads(disk, paths, id, arrivals, l).disk.files)
  {
    hide Uploads, Replay;
    OnlyPlannedPrefixChanges(disk, paths, id, arrivals, l, []);
    var p := Uploads(disk, paths, id, arrivals, l);
    forall path | path in p.disk.files
      ensures |p.disk.files[path]| < U64_LIMIT
    {
      ReplayAt(disk.files, p.commits, path);
    }
  }

  predicate AsksToSync(f: Frame)
  {
    f.header.messageType == MessageType.SyncManifest && f.header.requestId != 0 && f.header.transferId == 0
  }

  predicate TooLarge(source: Manifest, limits: Scan.ScanLimits)
  {
    exists r :: r in source && r.size > limits.maxFileSize
  }

  /** What the request comes to before anything is sent; `Synced` is a plan. */
  ghost function PlanStatus(files: Scan.Tree, f: Frame, limits: SyncLimits, rootReady: bool,
                            unreadable: set<Path>): SyncStatus
  {
    var decoded := SyncCodec.DecodeManifest(f.payload, limits.scan.maxEntries);
    if !AsksToSync(f) then BadRequest
    else if decoded.Err? then CodecFailed
    else if TooLarge(decoded.value, limits.scan) then BadRequest
    else if !rootReady then RootFailed
    else if !Scan.TreeScans(files, unreadable, limits.scan) then ScanFailed
    else if f.header.requestId + |Scan.Lacking(decoded.value, files)| >= U64_LIMIT then BadRequestId
    else Synced
  }

  /** The plan for two manifests. */
  function PlanOf(source: Manifest, before: Manifest): SyncCodec.Plan
  {
    var m := Planning.Merge(source, before);
    SyncCodec.Plan(m.uploads, m.same % U32_LIMIT, m.serverOnly % U32_LIMIT)
  }

  /**
   * From the manifest to the plan. The source checks the size of the encoded plan once more; by
   * `PlanAlwaysFits` that check never fires.
   */
  method PlanSync(files: map<Path, Bytes>, frame: Frame, limits: SyncLimits, rootReady: bool, unreadable: set<Path>)
    returns (status: SyncStatus, source: Manifest, plan: SyncCodec.Plan, ghost before: Manifest)
    requires Sized(files) && |frame.payload| <= DEFAULT_MAX_PAYLOAD
    ensures status == PlanStatus(files, frame, limits, rootReady, unreadable)
    ensures var decoded := SyncCodec.DecodeManifest(frame.payload, limits.scan.maxEntries);
      AsksToSync(frame) && decoded.Ok? ==> source == decoded.value && SyncCodec.ValidManifest(source)
    ensures status == Synced || status == BadRequestId ==>
      && Scan.ManifestOf(before, files) && plan == PlanOf(source, before)
      && plan.uploadPaths == Scan.Lacking(source, files)
      && SyncCodec.ValidPlan(plan) && 0 < |SyncCodec.EncodePlan(plan)| <= DEFAULT_MAX_PAYLOAD
  {
    hide SyncCodec.DecodeManifest, SyncCodec.ValidManifest, Scan.ManifestOf, Scan.TreeScans, Scan.Lacking,
      Planning.Needed,
      Planning.Merge, SyncCodec.EncodePlan, SyncCodec.EncodeManifest, SyncCodec.ValidPlan;
    source, plan, before := [], SyncCodec.Plan([], 0, 0), [];
    var id := frame.header.requestId;
    if frame.header.messageType != MessageType.SyncManifest || id == 0 || frame.header.transferId != 0 {
      return BadRequest, source, plan, before;
    }
    var decoded := SyncCodec.DecodeManifestPayload(frame.payload, limits.scan.maxEntries);
    if decoded.Err? {
      return CodecFailed, source, plan, before;
    }
    source := decoded.value;
    SyncCodec.ManifestCanonical(frame.payload, limits.scan.maxEntries);
    for i := 0 to |source|
      invariant forall r :: r in source[..i] ==> r.size <= limits.scan.maxFileSize
    {
      if source[i].size > limits.scan.maxFileSize {
        assert source[i] in source;
        return BadRequest, source, plan, before;
      }
      assert source[..i + 1] == source[..i] + [source[i]];
    }
    assert source[..|source|] == source;
    if !rootReady {
      return RootFailed, source, plan, before;
    }
    var scanned := ScanTree(files, unreadable, limits.scan);
    if scanned.Err? {
      return ScanFailed, source, plan, before;
    }
    before := scanned.value;
    plan := Planning.BuildSyncPlan(source, scanned.value);
    Planning.ValidManifestIsSorted(source);
    ManifestsSorted(before, files);
    Planning.MergeMeaning(source, before);
    Scan.NeededIsLacking(source, before, files);
    Planning.PlanAlwaysFits(source, before, plan, DEFAULT_MAX_PAYLOAD);
    if |plan.uploadPaths| > U64_LIMIT - 1 - id {
      return BadRequestId, source, plan, before;
    }
    status := Synced;
  }

  /** The final check of the destination: success exactly when every source record is present. */
  method CheckDestination(files: map<Path, Bytes>, source: Manifest, unreadable: set<Path>, limits: Scan.ScanLimits)
    returns (r: Result<ResultOfSync, Scan.ScanError>)
    requires Sized(files) && SyncCodec.ValidManifest(source)
    ensures r.Ok? <==> Scan.TreeScans(files, unreadable, limits)
    ensures r.Ok? ==> (r.value == SyncSuccess <==> forall x :: x in source ==> Scan.Present(files, x))
  {
    hide SyncCodec.ValidManifest, Scan.ManifestOf, Scan.TreeScans, Planning.Needed, Planning.Merge, Crc;
    var scanned := ScanTree(files, unreadable, limits);
    if scanned.Err? {
      return Err(scanned.error);
    }
    var after := scanned.value;
    var verification := Planning.BuildSyncPlan(source, after);
    Planning.ValidManifestIsSorted(source);
    ManifestsSorted(after, files);
    Planning.MergeMeaning(source, after);
    Planning.NothingNeeded(source, after);
    forall x
      ensures x in after <==> Scan.Present(files, x)
    {
      Scan.ManifestMembership(after, files, x);
    }
    r := Ok(if verification.uploadPaths == [] then SyncSuccess else DestinationChanged);
  }

  /** All that a run does not decide itself: system calls, sends and the frames of the client. */
  datatype Circumstances = Circumstances(
    rootReady: bool,
    unreadable: set<Path>,
    sendsPlan: bool,
    arrivals: seq<Arrival>,
    last: Incoming,
    unreadableAfter: set<Path>,
    sendsResult: bool)

  /** What `receive_directory_sync` reports, and how far it came: past the plan, past the final scan. */
  datatype SyncReport = SyncReport(status: SyncStatus, planned: seq<Path>, completed: nat, started: bool, checked: bool)

  datatype SyncEnd = SyncEnd(report: SyncReport, disk: Disk, replies: seq<Frame>, result: seq<Frame>)

  ghost predicate AllPresent(source: Manifest, files: Scan.Tree)
  {
    forall r :: r in source ==> Scan.Present(files, r)
  }

  /** What comes after the uploads; most failures are reported anew, without the count of completed ones. */
  ghost function Concluded(id: u64, source: Manifest, limits: SyncLimits, paths: seq<Path>, p: Progress,
                           c: Circumstances): SyncEnd
  {
    var report := SyncReport(Synced, paths, p.completed, true, false);
    var anew := report.(completed := 0);
    var wrong := ControlFailure(c.last, MessageType.SyncComplete, id);
    if p.failed == Some(UploadFailed) then SyncEnd(report.(status := UploadFailed), p.disk, p.sent, [])
    else if p.failed.Some? then SyncEnd(anew.(status := p.failed.value), p.disk, p.sent, [])
    else if wrong.Some? then SyncEnd(anew.(status := wrong.value), p.disk, p.sent, [])
    else if c.last.frame.payload != [] then SyncEnd(anew.(status := BadRequest), p.disk, p.sent, [])
    else if !Scan.TreeScans(p.disk.files, c.unreadableAfter, limits.scan) then
      SyncEnd(anew.(status := ScanFailed), p.disk, p.sent, [])
    else if !c.sendsResult then SyncEnd(anew.(status := FrameFailed, checked := true), p.disk, p.sent, [])
    else
      var good := AllPresent(source, p.disk.files);
      var code := if good then SyncSuccess else DestinationChanged;
      SyncEnd(report.(status := if good then Synced else VerificationFailed, checked := true), p.disk, p.sent,
              [Reply(MessageType.SyncResult, id, 0, EncodeSyncResult(code))])
  }

  /** A whole run of the server, from its request and its circumstances. */
  ghost function SyncRun(disk: Disk, frame: Frame, limits: SyncLimits, c: Circumstances): SyncEnd
  {
    var status := PlanStatus(disk.files, frame, limits, c.rootReady, c.unreadable);
    var stopped := if status != Synced then status else FrameFailed;
    if status != Synced || !c.sendsPlan then SyncEnd(SyncReport(stopped, [], 0, false, false), disk, [], [])
    else
      var source, id := SyncCodec.DecodeManifest(frame.payload, limits.scan.maxEntries).value, frame.header.requestId;
      var paths := Scan.Lacking(source, disk.files);
      Concluded(id, source, limits, paths, Uploads(disk, paths, id + 1, c.arrivals, limits.transfer), c)
  }

  /** `receive_directory_sync`: the run is the specified one, whatever its circumstances. */
  method ReceiveDirectorySync(store: Store, frame: Frame, limits: SyncLimits, c: Circumstances)
    returns (report: SyncReport, sent: seq<Frame>, ghost source: Manifest, ghost before: Manifest)
    requires PartsOk(store.parts) && Sized(store.files) && |frame.payload| <= DEFAULT_MAX_PAYLOAD
    requires forall a :: a in c.arrivals ==> a.death.None?
    modifies store
    ensures var end := SyncRun(old(store.View()), frame, limits, c);
      && report == end.report && store.View() == end.disk
      && (!report.started ==> sent == [])
      && (report.started ==>
            && SyncCodec.DecodeManifest(frame.payload, limits.scan.maxEntries) == Ok(source)
            && Scan.ManifestOf(before, old(store.files))
            && var payload := SyncCodec.EncodePlan(PlanOf(source, before));
               && |payload| < U32_LIMIT
               && sent == [Reply(MessageType.SyncPlan, frame.header.requestId, 0, payload)] + end.replies + end.result)
  {
    hide SyncCodec.DecodeManifest, SyncCodec.ValidManifest, Scan.ManifestOf, Scan.TreeScans, Scan.Lacking, PlanOf,
      SyncCodec.EncodePlan, SyncCodec.ValidPlan, Uploads, Concluded;
    ghost var disk := store.View();
    sent := [];
    var id, status, manifest, plan := frame.header.requestId, Synced, [], SyncCodec.Plan([], 0, 0);
    status, manifest, plan, before := PlanSync(store.files, frame, limits, c.rootReady, c.unreadable);
    source := manifest;
    if status != Synced || !c.sendsPlan {
      return SyncReport(if status != Synced then status else FrameFailed, [], 0, false, false), sent, source, before;
    }
    var payload := SyncCodec.EncodeSyncPlan(plan);
    var failed, completed, replies := ReceiveUploads(store, plan.uploadPaths, id, c.arrivals, limits.transfer);
    StaysSized(disk, plan.uploadPaths, frame.header.requestId + 1, c.arrivals, limits.transfer);
    ghost var p := Uploads(disk, plan.uploadPaths, frame.header.requestId + 1, c.arrivals, limits.transfer);
    var result;
    report, result := ConcludeSync(store.files, id, manifest, limits, plan.uploadPaths, failed, completed, c, p);
    sent := [Reply(MessageType.SyncPlan, id, 0, payload)] + replies + result;
  }

  /** The end of the synchronisation: the client's last frame, the final check and the report. */
  method ConcludeSync(files: map<Path, Bytes>, id: u64, source: Manifest, limits: SyncLimits, paths: seq<Path>,
                      failed: Option<SyncStatus>, completed: nat, c: Circumstances, ghost p: Progress)
    returns (report: SyncReport, result: seq<Frame>)
    requires Sized(files) && SyncCodec.ValidManifest(source)
    requires files == p.disk.files && failed == p.failed && completed == p.completed
    ensures SyncEnd(report, p.disk, p.sent, result) == Concluded(id, source, limits, paths, p, c)
    ensures report.started
  {
    hide SyncCodec.ValidManifest, Scan.TreeScans;
    report, result := SyncReport(Synced, paths, completed, true, false), [];
    if failed == Some(UploadFailed) {
      return report.(status := UploadFailed), [];
    }
    var anew := report.(completed := 0);
    if failed.Some? {
      return anew.(status := failed.value), [];
    }
    var wrong := ControlFailure(c.last, MessageType.SyncComplete, id);
    if wrong.Some? {
      return anew.(status := wrong.value), [];
    }
    if c.last.frame.payload != [] {
      return anew.(status := BadRequest), [];
    }
    var checked := CheckDestination(files, source, c.unreadableAfter, limits.scan);
    if checked.Err? {
      return anew.(status := ScanFailed), [];
    }
    if !c.sendsResult {
      return anew.(status := FrameFailed, checked := true), [];
    }
    result := [Reply(MessageType.SyncResult, id, 0, EncodeSyncResult(checked.value))];
    report := report.(status := if checked.value == SyncSuccess then Synced else VerificationFailed, checked := true);
  }

  /** The client finished its uploads and asked for the final check. */
  predicate AsksToFinish(input: Incoming, id: u64)
  {
    ControlFailure(input, MessageType.SyncComplete, id).None? && input.frame.payload == []
  }

  /** Exactly when a run starts, when it gets to its final check, and when it succeeds. */
  lemma SyncSucceedsIff(disk: Disk, frame: Frame, limits: SyncLimits, c: Circumstances)
    ensures var r := SyncRun(disk, frame, limits, c).report;
      var decoded := SyncCodec.DecodeManifest(frame.payload, limits.scan.maxEntries);
      && (r.started <==>
            && AsksToSync(frame) && decoded.Ok? && !TooLarge(decoded.value, limits.scan) && c.rootReady
            && Scan.TreeScans(disk.files, c.unreadable, limits.scan)
            && frame.header.requestId + |Scan.Lacking(decoded.value, disk.files)| < U64_LIMIT && c.sendsPlan)
      && (r.started ==>
            var paths := Scan.Lacking(decoded.value, disk.files);
            var p := Uploads(disk, paths, frame.header.requestId + 1, c.arrivals, limits.transfer);
            && (r.checked <==>
                  && p.failed.None? && AsksToFinish(c.last, frame.header.requestId)
                  && Scan.TreeScans(p.disk.files, c.unreadableAfter, limits.scan))
            && (r.status == Synced <==> r.checked && c.sendsResult && AllPresent(decoded.value, p.disk.files)))
      && (r.status == Synced ==> r.started)
  {
    hide SyncCodec.DecodeManifest, Scan.TreeScans, Scan.Lacking, AllPresent, Uploads, TooLarge;
    var decoded := SyncCodec.DecodeManifest(frame.payload, limits.scan.maxEntries);
    if SyncRun(disk, frame, limits, c).report.started {
      var paths := Scan.Lacking(decoded.value, disk.files);
      UploadsFail(disk, paths, frame.header.requestId + 1, c.arrivals, limits.transfer);
    }
  }

  lemma {:induction false} UploadsFail(disk: Disk, paths: seq<Path>, id: nat, arrivals: seq<Arrival>, l: TransferLimits)
    ensures Uploads(disk, paths, id, arrivals, l).failed != Some(Synced)
    decreases |paths|
  {
    hide WholeSession, DyingSession, Planned;
    if paths != [] {
      var one := OneUpload(disk, paths[0], id, ArrivalAt(arrivals), l);
      UploadsFail(one.disk, paths[1..], id + 1, Later(arrivals), l);
    }
  }

  // ---------------------------------------------------------------------------
  // The client.
  // ---------------------------------------------------------------------------

  /** How one call of `send_file` is answered. */
  datatype Transfer = Transfer(os: ClientOs, script: seq<Exchange>)

  function TransferAt(transfers: seq<Transfer>): Transfer
  {
    if transfers == [] then Transfer(CLIENT_HEALTHY, []) else transfers[0]
  }

  datatype Outbox = Outbox(failed: Option<SyncStatus>, completed: nat, frames: seq<Frame>)

  /** The client's loop over the plan: each path must be its own, and each upload must succeed. */
  function Offers(tree: Scan.Tree, source: Manifest, paths: seq<Path>, id: nat, transfers: seq<Transfer>,
                  limits: TransferLimits): Outbox
    requires Scan.ManifestOf(source, tree) && id + |paths| <= U64_LIMIT
    decreases |paths|
  {
    if paths == [] then Outbox(None, 0, [])
    else if !Planning.HasPath(source, paths[0]) then Outbox(Some(PlanMismatch), 0, [])
    else
      OwnPath(tree, source, paths[0]);
      var t := TransferAt(transfers);
      var c := Conversation(UploadOf(tree, paths[0], id, limits), t.os, t.script);
      if c.client.outcome.status != Status.Success then Outbox(Some(UploadFailed), 0, c.sent)
      else
        var rest := Offers(tree, source, paths[1..], id + 1, if transfers == [] then [] else transfers[1..], limits);
        Outbox(rest.failed, 1 + rest.completed, c.sent + rest.frames)
  }

  lemma OwnPath(tree: Scan.Tree, source: Manifest, path: Path)
    requires Scan.ManifestOf(source, tree) && Planning.HasPath(source, path)
    ensures path in tree && |tree[path]| < U64_LIMIT
  {
    var k :| 0 <= k < |source| && source[k].path == path;
    assert source[k] in source;
  }

  /** Every frame of an upload carries the upload's request ID. */
  lemma {:induction false} ConverseIds(u: Upload, client: Client, script: seq<Exchange>, f: Frame)
    requires ClientOk(u, client) && f in Converse(u, client, script).sent
    ensures f.header.requestId == u.requestId && f.header.messageType != UploadRequest
    decreases |script|
  {
    hide Crc, OnFrame, ClientOk;
    var now := ExchangeAt(script);
    var r := OnFrame(u, client, now.input, now.os);
    MoveIds(u, client, now.input, now.os);
    LostEnds(u, client, now.os);
    if f !in r.sent {
      ConverseIds(u, r.client, script[1..], f);
    }
  }

  lemma LostEnds(u: Upload, client: Client, os: ClientOs)
    requires ClientOk(u, client)
    ensures OnFrame(u, client, Failed(PeerGone), os).client.Ended?
  {
  }

  lemma MoveIds(u: Upload, client: Client, input: Incoming, os: ClientOs)
    requires ClientOk(u, client)
    ensures forall f :: f in OnFrame(u, client, input, os).sent ==>
      f.header.requestId == u.requestId && f.header.messageType != UploadRequest
  {
    hide Crc, DecodeReady, DecodeOffset, DecodeResult, PutUint;
  }

  lemma ConversationIds(u: Upload, os: ClientOs, script: seq<Exchange>, f: Frame)
    requires Representable(u) && f in Conversation(u, os, script).sent
    ensures f.header.requestId == u.requestId
    ensures f.header.messageType == UploadRequest ==> DecodeMetadata(f.payload) == Ok(MetadataOf(u))
    ensures u.requestId != 0
  {
    hide Crc, Converse, EncodeMetadata, DecodeMetadata;
    MetadataRoundTrip(MetadataOf(u));
    var r := Start(u, os);
    if f !in r.sent {
      ConverseIds(u, r.client, script, f);
    }
  }

  /** The frame belongs to the upload of the `i`-th planned path, which is a file of the client's own. */
  ghost predicate OffersAt(tree: Scan.Tree, source: Manifest, paths: seq<Path>, id: nat, f: Frame, i: nat)
    requires Scan.ManifestOf(source, tree)
  {
    && i < |paths| && Planning.HasPath(source, paths[i]) && f.header.requestId == id + i && f.header.requestId != 0
    && (f.header.messageType == UploadRequest ==>
          (OwnPath(tree, source, paths[i]); DecodeMetadata(f.payload) == Ok(MetaOf(tree, paths[i]))))
  }

  /**
   * The client uploads only files of its own manifest, whatever plan it is sent. Each upload has
   * an ID of its own: the IDs count up from the synchronisation's, are never zero and never wrap.
   */
  lemma {:induction false} OffersOnlyItsOwn(tree: Scan.Tree, source: Manifest, paths: seq<Path>, id: nat,
                                            transfers: seq<Transfer>,
                                            limits: TransferLimits, f: Frame)
    requires Scan.ManifestOf(source, tree) && id + |paths| <= U64_LIMIT
    requires f in Offers(tree, source, paths, id, transfers, limits).frames
    ensures exists i: nat :: OffersAt(tree, source, paths, id, f, i)
    decreases |paths|
  {
    hide Crc, Conversation, Scan.ManifestOf, DecodeMetadata, EncodeMetadata, Planning.HasPath;
    OwnPath(tree, source, paths[0]);
    var t := TransferAt(transfers);
    var u := UploadOf(tree, paths[0], id, limits);
    var c := Conversation(u, t.os, t.script);
    if f in c.sent {
      ConversationIds(u, t.os, t.script, f);
      assert OffersAt(tree, source, paths, id, f, 0);
    } else {
      var later := if transfers == [] then [] else transfers[1..];
      OffersOnlyItsOwn(tree, source, paths[1..], id + 1, later, limits, f);
      var i: nat :| OffersAt(tree, source, paths[1..], id + 1, f, i);
      assert paths[1..][i] == paths[i + 1];
      assert OffersAt(tree, source, paths, id, f, i + 1);
    }
  }

  method SendUploads(tree: Scan.Tree, source: Manifest, paths: seq<Path>, id: u64, transfers: seq<Transfer>,
                     limits: TransferLimits)
    returns (failed: Option<SyncStatus>, completed: nat, sent: seq<Frame>)
    requires Scan.ManifestOf(source, tree) && id + |paths| < U64_LIMIT
    ensures Offers(tree, source, paths, id + 1, transfers, limits) == Outbox(failed, completed, sent)
  {
    hide Crc, Conversation, Scan.ManifestOf;
    ghost var whole := Offers(tree, source, paths, id + 1, transfers, limits);
    var left := transfers;
    completed, sent := 0, [];
    assert paths[0..] == paths;
    ManifestsSorted(source, tree);
    for index := 0 to |paths|
      invariant completed == index
      invariant var p := Offers(tree, source, paths[index..], id + index + 1, left, limits);
        whole == Outbox(p.failed, index + p.completed, sent + p.frames)
    {
      assert paths[index..][0] == paths[index] && paths[index..][1..] == paths[index + 1..];
      var found := FindFile(source, paths[index]);
      if found.None? {
        return Some(PlanMismatch), completed, sent;
      }
      OwnPath(tree, source, paths[index]);
      var t := TransferAt(left);
      var outcome, more := SendFile(UploadOf(tree, paths[index], id + index + 1, limits), t.os, t.script);
      ghost var before := sent;
      sent := sent + more;
      if outcome.status != Status.Success {
        return Some(UploadFailed), completed, sent;
      }
      completed := completed + 1;
      left := if left == [] then [] else left[1..];
      ghost var rest := Offers(tree, source, paths[index + 1..], id + index + 2, left, limits);
      assert before + (more + rest.frames) == sent + rest.frames;
    }
    assert paths[|paths|..] == [];
    failed := None;
  }

  /** What the client does with the server's plan before it uploads anything. */
  function PlanFailure(input: Incoming, id: u64, files: nat, maxEntries: nat): (r: Result<SyncCodec.Plan, SyncStatus>)
    ensures r.Ok? ==> id + |r.value.uploadPaths| < U64_LIMIT && |r.value.uploadPaths| + r.value.unchangedCount == files
  {
    var wrong := ControlFailure(input, MessageType.SyncPlan, id);
    if wrong.Some? then Err(wrong.value)
    else
      var decoded := SyncCodec.DecodePlan(input.frame.payload, maxEntries);
      if decoded.Err? then Err(CodecFailed)
      else if |decoded.value.uploadPaths| + decoded.value.unchangedCount != files then Err(PlanMismatch)
      else if |decoded.value.uploadPaths| > U64_LIMIT - 1 - id then Err(BadRequestId)
      else Ok(decoded.value)
  }

  /** The plan an honest server sends passes every check of the client. */
  lemma HonestPlanAccepted(source: Manifest, before: Manifest, plan: SyncCodec.Plan, id: u64, maxEntries: nat)
    requires SyncCodec.ValidManifest(source) && Planning.Sorted(before) && |source| <= maxEntries
      && |before| < U32_LIMIT
    requires |SyncCodec.EncodeManifest(source)| <= DEFAULT_MAX_PAYLOAD
    requires plan.uploadPaths == Planning.Merge(source, before).uploads
    requires plan.unchangedCount == Planning.Merge(source, before).same % U32_LIMIT
    requires id + |plan.uploadPaths| < U64_LIMIT
    ensures |SyncCodec.EncodePlan(plan)| < U32_LIMIT
    ensures var f := Reply(MessageType.SyncPlan, id, 0, SyncCodec.EncodePlan(plan));
      PlanFailure(Arrived(f), id, |source|, maxEntries) == Ok(plan)
    ensures forall p :: p in plan.uploadPaths ==> Planning.HasPath(source, p)
  {
    hide SyncCodec.ValidManifest, SyncCodec.ValidPlan, SyncCodec.EncodePlan, SyncCodec.EncodeManifest,
      SyncCodec.DecodePlan,
      Planning.Needed, Planning.Merge, Planning.HasPath, Planning.Sorted, Planning.Changed, Planning.ServerOnly, Safe;
    Planning.ValidManifestIsSorted(source);
    Planning.MergeMeaning(source, before);
    Planning.PlanAlwaysFits(source, before, plan, DEFAULT_MAX_PAYLOAD);
    SyncCodec.PlanRoundTrip(plan, maxEntries);
    NeededAreOwn(source, before);
  }

  lemma NeededAreOwn(source: Manifest, before: Manifest)
    ensures forall p :: p in Planning.Needed(source, before) ==> Planning.HasPath(source, p)
  {
    hide Planning.Needed;
    forall p | p in Planning.Needed(source, before)
      ensures Planning.HasPath(source, p)
    {
      Planning.NeededExactly(source, before, p);
    }
  }

  /** All that a call of the client does not decide itself. */
  datatype ClientCircumstances = ClientCircumstances(
    unreadable: set<Path>,
    sendsManifest: bool,
    first: Incoming,
    transfers: seq<Transfer>,
    sendsComplete: bool,
    last: Incoming)

  datatype ClientEnd = ClientEnd(status: SyncStatus, completed: nat, frames: seq<Frame>)

  /** The manifest goes into one frame. */
  predicate FitsFrame(source: Manifest)
  {
    SyncCodec.ValidManifest(source) && |SyncCodec.EncodeManifest(source)| <= DEFAULT_MAX_PAYLOAD
  }

  /** What the server's last frame comes to. */
  function Verdict(input: Incoming, id: u64): (status: SyncStatus)
    ensures status == Synced <==>
      ControlFailure(input, MessageType.SyncResult, id).None?
        && DecodeSyncResult(input.frame.payload) == Ok(SyncSuccess)
  {
    var wrong := ControlFailure(input, MessageType.SyncResult, id);
    if wrong.Some? then wrong.value
    else
      var decoded := DecodeSyncResult(input.frame.payload);
      if decoded.Err? then CodecFailed else if decoded.value == SyncSuccess then Synced else VerificationFailed
  }

  /** What follows the manifest. */
  ghost function AfterManifest(tree: Scan.Tree, source: Manifest, id: u64, limits: SyncLimits,
                               c: ClientCircumstances): ClientEnd
    requires Scan.ManifestOf(source, tree)
  {
    var accepted := PlanFailure(c.first, id, |source|, limits.scan.maxEntries);
    if accepted.Err? then ClientEnd(accepted.error, 0, [])
    else
      var o := Offers(tree, source, accepted.value.uploadPaths, id + 1, c.transfers, limits.transfer);
      if o.failed.Some? then
        ClientEnd(o.failed.value, if o.failed == Some(UploadFailed) then o.completed else 0, o.frames)
      else if !c.sendsComplete then ClientEnd(FrameFailed, 0, o.frames)
      else
        var verdict := Verdict(c.last, id);
        ClientEnd(verdict, if verdict == Synced || verdict == VerificationFailed then o.completed else 0,
                  o.frames + [Reply(MessageType.SyncComplete, id, 0, [])])
  }

  /** A whole call of the client on a tree with this manifest. */
  ghost function ClientRun(tree: Scan.Tree, source: Manifest, id: u64, limits: SyncLimits,
                           c: ClientCircumstances): ClientEnd
    requires id != 0 && Scan.TreeScans(tree, c.unreadable, limits.scan) ==> Scan.ManifestOf(source, tree)
  {
    if id == 0 then ClientEnd(BadRequestId, 0, [])
    else if !Scan.TreeScans(tree, c.unreadable, limits.scan) then ClientEnd(ScanFailed, 0, [])
    else if !FitsFrame(source) then ClientEnd(CodecFailed, 0, [])
    else if !c.sendsManifest then ClientEnd(FrameFailed, 0, [])
    else
      var rest := AfterManifest(tree, source, id, limits, c);
      var manifest := Reply(MessageType.SyncManifest, id, 0, SyncCodec.EncodeManifest(source));
      ClientEnd(rest.status, rest.completed, [manifest] + rest.frames)
  }

  /** `sync_directory`: the call is the specified one, whatever its circumstances. */
  method SyncDirectory(tree: Scan.Tree, id: u64, limits: SyncLimits, c: ClientCircumstances)
    returns (status: SyncStatus, completed: nat, sent: seq<Frame>, ghost source: Manifest)
    requires Sized(tree)
    ensures id != 0 && Scan.TreeScans(tree, c.unreadable, limits.scan) ==> Scan.ManifestOf(source, tree)
    ensures ClientRun(tree, source, id, limits, c) == ClientEnd(status, completed, sent)
  {
    hide Scan.ManifestOf, Scan.TreeScans, SyncCodec.ValidManifest, AfterManifest, SyncCodec.EntryBytes;
    completed, sent, source := 0, [], [];
    if id == 0 {
      return BadRequestId, completed, sent, source;
    }
    var scanned := ScanTree(tree, c.unreadable, limits.scan);
    if scanned.Err? {
      return ScanFailed, completed, sent, source;
    }
    source := scanned.value;
    var payload := SyncCodec.EncodeManifestPayload(scanned.value);
    if payload == [] || |payload| > DEFAULT_MAX_PAYLOAD {
      return CodecFailed, completed, sent, source;
    }
    if !c.sendsManifest {
      return FrameFailed, completed, sent, source;
    }
    status, completed, sent := UploadAndFinish(tree, scanned.value, id, limits, c);
    sent := [Reply(MessageType.SyncManifest, id, 0, payload)] + sent;
  }

  /** From the server's plan to its final word. */
  method UploadAndFinish(tree: Scan.Tree, source: Manifest, id: u64, limits: SyncLimits, c: ClientCircumstances)
    returns (status: SyncStatus, completed: nat, sent: seq<Frame>)
    requires Scan.ManifestOf(source, tree)
    ensures AfterManifest(tree, source, id, limits, c) == ClientEnd(status, completed, sent)
  {
    hide Scan.ManifestOf, SyncCodec.DecodePlan, Offers;
    var accepted := PlanFailure(c.first, id, |source|, limits.scan.maxEntries);
    if accepted.Err? {
      return accepted.error, 0, [];
    }
    var failed, done, more := SendUploads(tree, source, accepted.value.uploadPaths, id, c.transfers, limits.transfer);
    if failed.Some? {
      return failed.value, if failed == Some(UploadFailed) then done else 0, more;
    }
    if !c.sendsComplete {
      return FrameFailed, 0, more;
    }
    sent := more + [Reply(MessageType.SyncComplete, id, 0, [])];
    var wrong := ControlFailure(c.last, MessageType.SyncResult, id);
    if wrong.Some? {
      return wrong.value, 0, sent;
    }
    var decoded := DecodeSyncResult(c.last.frame.payload);
    if decoded.Err? {
      return CodecFailed, 0, sent;
    }
    return if decoded.value == SyncSuccess then Synced else VerificationFailed, done, sent;
  }

  /** The client reports success exactly if its own checks, the plan, every upload and the server's check went well. */
  lemma ClientSucceedsIff(tree: Scan.Tree, source: Manifest, id: u64, limits: SyncLimits, c: ClientCircumstances)
    requires Scan.ManifestOf(source, tree)
    ensures var r := ClientRun(tree, source, id, limits, c);
      var accepted := PlanFailure(c.first, id, |source|, limits.scan.maxEntries);
      r.status == Synced <==>
        && id != 0 && Scan.TreeScans(tree, c.unreadable, limits.scan) && FitsFrame(source) && c.sendsManifest
        && accepted.Ok? && r.completed == |accepted.value.uploadPaths| && c.sendsComplete
        && ControlFailure(c.last, MessageType.SyncResult, id).None?
          && DecodeSyncResult(c.last.frame.payload) == Ok(SyncSuccess)
  {
    hide Scan.ManifestOf, Scan.TreeScans, FitsFrame, SyncCodec.DecodePlan, Offers, DecodeSyncResult;
    PlanFailureIsFailure(c.first, id, |source|, limits.scan.maxEntries);
    var accepted := PlanFailure(c.first, id, |source|, limits.scan.maxEntries);
    if accepted.Ok? {
      OffersCount(tree, source, accepted.value.uploadPaths, id + 1, c.transfers, limits.transfer);
    }
  }

  lemma PlanFailureIsFailure(input: Incoming, id: u64, files: nat, maxEntries: nat)
    ensures PlanFailure(input, id, files, maxEntries) != Err(Synced)
  {
    hide SyncCodec.DecodePlan;
  }

  lemma {:induction false} OffersCount(tree: Scan.Tree, source: Manifest, paths: seq<Path>, id: nat,
                                       transfers: seq<Transfer>, limits: TransferLimits)
    requires Scan.ManifestOf(source, tree) && id + |paths| <= U64_LIMIT
    ensures var o := Offers(tree, source, paths, id, transfers, limits);
      o.completed <= |paths| && (o.failed.None? <==> o.completed == |paths|) && o.failed != Some(Synced)
    decreases |paths|
  {
    hide Crc, Conversation, Scan.ManifestOf;
    if paths != [] && Planning.HasPath(source, paths[0]) {
      OwnPath(tree, source, paths[0]);
      OffersCount(tree, source, paths[1..], id + 1, if transfers == [] then [] else transfers[1..], limits);
    }
  }
}
