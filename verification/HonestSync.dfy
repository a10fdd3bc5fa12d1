/**
 * An honest client and an honest server that nothing disturbs: what each sends is what the other
 * waits for, and the synchronisation succeeds exactly if the merged tree is within the scan limits.
 */
module HonestSync {
  import opened Words
  import opened Wire
  import opened Frames
  import opened Paths
  import opened Checksum
  import opened PartialStore
  import opened Receiver
  import opened ReceiveFile
  import opened ServerRuns
  import opened Sender
  import opened Completion
  import opened Dialogue
  import opened SyncRuns
  import opened FinalScan
  import opened DirectorySync
  import SyncCodec
  import Planning
  import Scan

  // ---------------------------------------------------------------------------
  // The uploads, frame by frame.
  // ---------------------------------------------------------------------------

  /** The frames the client sends in these rounds. */
  function RoundFrames(rounds: seq<Round>): seq<Frame>
  {
    if rounds == [] then []
    else (if rounds[0].input.Arrived? then [rounds[0].input.frame] else []) + RoundFrames(rounds[1..])
  }

  /** The frames the server reads in these sessions. */
  function ArrivalFrames(arrivals: seq<Arrival>): seq<Frame>
  {
    if arrivals == [] then []
    else
      var a := arrivals[0];
      (if a.input.Arrived? then [a.input.frame] else []) + RoundFrames(a.rounds) + ArrivalFrames(arrivals[1..])
  }

  lemma {:induction false} RoundFramesAre(rounds: seq<Round>)
    requires forall r :: r in rounds ==> r.input.Arrived?
    ensures RoundFrames(rounds) == FramesOf(rounds)
  {
    if rounds != [] {
      RoundFramesAre(rounds[1..]);
      assert rounds[0] in rounds;
      assert FramesOf(rounds) == [rounds[0].input.frame] + FramesOf(rounds[1..]);
    }
  }

  /** The client's calls, each answered by the server's replies. */
  ghost function HonestTransfers(disk: Disk, tree: Scan.Tree, paths: seq<Path>, id: nat,
                                 limits: TransferLimits): seq<Transfer>
    requires CanSend(tree, paths, id, limits)
    decreases |paths|
  {
    if paths == [] then [] else
      var u := UploadOf(tree, paths[0], id, limits);
      [Transfer(CLIENT_HEALTHY, Script(HonestReplies(u, disk)))]
      + (if InTheWay(disk.files, paths[0]) then []
         else HonestTransfers(FirstLanded(disk, u), tree, paths[1..], id + 1, limits))
  }

  /** The replies of the server to all of them. */
  ghost function HonestAnswers(disk: Disk, tree: Scan.Tree, paths: seq<Path>, id: nat,
                               limits: TransferLimits): seq<Frame>
    requires CanSend(tree, paths, id, limits)
    decreases |paths|
  {
    if paths == [] then [] else
      var u := UploadOf(tree, paths[0], id, limits);
      HonestReplies(u, disk)
      + (if InTheWay(disk.files, paths[0]) then []
         else HonestAnswers(FirstLanded(disk, u), tree, paths[1..], id + 1, limits))
  }

  /**
   * What the client sends for the plan is exactly what the server reads, upload by upload, until one
   * fails because something is in its way.
   */
  lemma {:induction false} HonestOffers(disk: Disk, tree: Scan.Tree, source: Manifest, paths: seq<Path>, id: nat,
                                        limits: TransferLimits)
    requires Scan.ManifestOf(source, tree) && CanSend(tree, paths, id, limits) && Separate(paths)
    requires forall p :: p in paths ==> Planning.HasPath(source, p)
    ensures var n := Clear(disk.files, paths);
      Offers(tree, source, paths, id, HonestTransfers(disk, tree, paths, id, limits), limits)
        == Outbox(if n < |paths| then Some(UploadFailed) else None, n,
                  ArrivalFrames(HonestArrivals(disk, tree, paths, id, limits)))
    decreases |paths|
  {
    hide Crc, Conversation, HonestReplies, HonestUpload, Expected, RequestFrame, Scan.ManifestOf, Planning.HasPath,
      Safe, RoundFrames, InTheWay, Separate;
    if paths != [] {
      OwnPath(tree, source, paths[0]);
      var u := UploadOf(tree, paths[0], id, limits);
      HonestCall(u, disk);
      var transfers := HonestTransfers(disk, tree, paths, id, limits);
      var arrivals := HonestArrivals(disk, tree, paths, id, limits);
      if InTheWay(disk.files, paths[0]) {
        assert arrivals[1..] == [];
        var frames := [RequestFrame(u)] + RoundFrames(HonestUpload(u, disk));
        assert frames + [] == frames;
      } else {
        var disk' := FirstLanded(disk, u);
        SeparateTail(paths);
        HonestOffers(disk', tree, source, paths[1..], id + 1, limits);
        assert paths == [paths[0]] + paths[1..];
        ClearStays(disk.files, paths[0], disk'.files[paths[0]], paths[1..]);
        assert transfers[1..] == HonestTransfers(disk', tree, paths[1..], id + 1, limits);
        assert arrivals[1..] == HonestArrivals(disk', tree, paths[1..], id + 1, limits);
      }
    }
  }

  lemma HonestCall(u: Upload, disk: Disk)
    requires Startable(u)
    ensures var c := Conversation(u, CLIENT_HEALTHY, Script(HonestReplies(u, disk)));
      && (c.client.outcome.status == Status.Success <==> !InTheWay(disk.files, u.filename))
      && c.sent == [RequestFrame(u)] + RoundFrames(HonestUpload(u, disk))
  {
    hide Crc, Conversation, HonestReplies, RequestFrame, HonestUpload, RoundFrames, HonestOutcome, InTheWay;
    UploadArrives(u, disk);
    RoundFramesAre(HonestUpload(u, disk));
    HonestConversation(u, disk);
  }

  /** And what the server replies is exactly what the client waits for. */
  lemma {:induction false} HonestServing(disk: Disk, tree: Scan.Tree, paths: seq<Path>, id: nat,
                                         limits: TransferLimits, l: TransferLimits)
    requires PartsOk(disk.parts) && CanSend(tree, paths, id, limits) && CanReceive(tree, paths, disk.parts, l)
    requires limits.chunkSize <= l.chunkSize
    ensures Uploads(disk, paths, id, HonestArrivals(disk, tree, paths, id, limits), l).sent
         == HonestAnswers(disk, tree, paths, id, limits)
    decreases |paths|
  {
    hide Crc, HonestReplies, Expected, CanReceive, CanSend, InTheWay, MatchesAt, PartsOk;
    if paths != [] {
      hide Uploads, HonestArrivals;
      HonestSplit(disk, tree, paths, id, limits, l);
      FirstStarts(tree, paths, id, limits);
      RoomForFirst(disk, tree, paths, id, limits, l);
      var u := UploadOf(tree, paths[0], id, limits);
      if InTheWay(disk.files, paths[0]) {
        assert HonestReplies(u, disk) + [] == HonestReplies(u, disk);
      } else {
        HonestServing(FirstLanded(disk, u), tree, paths[1..], id + 1, limits, l);
      }
    }
  }

  // ---------------------------------------------------------------------------
  // The whole synchronisation.
  // ---------------------------------------------------------------------------

  /** Both trees scan, the manifest fits a frame, and nothing disturbs the uploads. */
  ghost predicate Honest(disk: Disk, tree: Scan.Tree, source: Manifest, before: Manifest, id: u64, cl: SyncLimits,
                         sl: SyncLimits)
  {
    && id != 0 && Undisturbed(disk, tree, source, before, id + 1, cl.transfer, sl.transfer)
    && Scan.TreeScans(tree, {}, cl.scan) && Scan.TreeScans(disk.files, {}, sl.scan)
    && FitsFrame(source) && |source| <= sl.scan.maxEntries && |source| <= cl.scan.maxEntries && |before| < U32_LIMIT
    && !TooLarge(source, sl.scan)
  }

  function ManifestFrame(source: Manifest, id: u64): Frame
    requires FitsFrame(source)
  {
    Reply(MessageType.SyncManifest, id, 0, SyncCodec.EncodeManifest(source))
  }

  /** What the server meets. */
  ghost function ServerSide(disk: Disk, tree: Scan.Tree, source: Manifest, before: Manifest, id: u64, cl: SyncLimits,
                            sl: SyncLimits): Circumstances
    requires Honest(disk, tree, source, before, id, cl, sl)
  {
    var arrivals := HonestArrivals(disk, tree, Planning.Needed(source, before), id + 1, cl.transfer);
    var complete := Reply(MessageType.SyncComplete, id, 0, []);
    var last := if NoClash(source, before) then Arrived(complete) else Failed(PeerGone);
    Circumstances(true, {}, true, arrivals, last, {}, true)
  }

  lemma BeforePasses(files: Scan.Tree, before: Manifest, limits: Scan.ScanLimits)
    requires Scan.ManifestOf(before, files) && Scan.TreeScans(files, {}, limits)
    ensures RecordsPass(before, limits)
  {
    hide Safe, Crc;
    var listing: seq<Scan.DiskFile> :| Scan.Enumerates(listing, files) && Scan.Scannable(listing, {}, limits);
    forall r | r in before
      ensures Safe(r.path) && r.size <= limits.maxFileSize
    {
      var i :| 0 <= i < |listing| && listing[i].path == r.path;
      assert listing[i] in listing;
    }
  }

  lemma SourcePasses(source: Manifest, limits: Scan.ScanLimits)
    requires SyncCodec.ValidManifest(source) && !TooLarge(source, limits)
    ensures RecordsPass(source, limits)
  {
    hide Safe;
    Planning.ValidManifestIsSorted(source);
  }

  /**
   * An honest, undisturbed synchronisation succeeds exactly if no file of one side stands where the
   * other needs a directory, and the source's records and the destination's others together are within
   * the limits on entries and encoded size. If the manifests clash, it ends with the first upload that
   * has something in its way. If only the limits are exceeded, it completes all uploads, its final scan
   * fails, and no result is sent.
   */
  lemma HonestSyncSucceedsIff(disk: Disk, tree: Scan.Tree, source: Manifest, before: Manifest, id: u64,
                              cl: SyncLimits, sl: SyncLimits)
    requires Honest(disk, tree, source, before, id, cl, sl)
    ensures var end := SyncRun(disk, ManifestFrame(source, id), sl, ServerSide(disk, tree, source, before, id, cl, sl));
      var paths := Planning.Needed(source, before);
      var clash, fits := !NoClash(source, before), FitsTogether(source, before, sl.scan);
      && end.report.started && end.report.planned == paths
      && end.replies == HonestAnswers(disk, tree, paths, id + 1, cl.transfer)
      && end.disk == HonestEnd(disk, tree, source, before, id + 1, cl.transfer, sl.transfer).disk
      && (end.report.status == Synced <==> !clash && fits)
      && (end.report.status == ScanFailed <==> !clash && !fits)
      && (end.report.status == UploadFailed <==> clash)
      && end.report.completed == (if clash then Clear(disk.files, paths) else if fits then |paths| else 0)
      && end.result == (if clash || !fits then []
                        else [Reply(MessageType.SyncResult, id, 0, EncodeSyncResult(SyncSuccess))])
  {
    hide Crc, SyncCodec.ValidManifest, SyncCodec.EncodeManifest, SyncCodec.DecodeManifest, Scan.ManifestOf,
      Scan.TreeScans, Scan.Lacking, Planning.Needed, Uploads, HonestArrivals, HonestAnswers, FitsTogether, RecordsPass,
      TooLarge, CanSend, CanReceive, Scan.Present, NoClash, Clear, ClashFree;
    SyncCodec.ManifestRoundTrip(source, sl.scan.maxEntries);
    Scan.NeededIsLacking(source, before, disk.files);
    BeforePasses(disk.files, before, sl.scan);
    SourcePasses(source, sl.scan);
    HonestScanIff(disk, tree, source, before, id + 1, cl.transfer, sl.transfer, sl.scan);
    HonestServing(disk, tree, Planning.Needed(source, before), id + 1, cl.transfer, sl.transfer);
    IdsFit(tree, Planning.Needed(source, before), id + 1, cl.transfer);
  }

  lemma IdsFit(tree: Scan.Tree, paths: seq<Path>, id: nat, limits: TransferLimits)
    requires CanSend(tree, paths, id, limits)
    ensures id + |paths| <= U64_LIMIT
  {
  }

  /** What the client meets: the server's plan, its replies, and its result or the end of the connection. */
  ghost function ClientSide(disk: Disk, tree: Scan.Tree, source: Manifest, before: Manifest, id: u64, cl: SyncLimits,
                            sl: SyncLimits)
    : ClientCircumstances
    requires Honest(disk, tree, source, before, id, cl, sl)
      && |SyncCodec.EncodePlan(PlanOf(source, before))| < U32_LIMIT
  {
    ClientCircumstances(
      {}, true, Arrived(Reply(MessageType.SyncPlan, id, 0, SyncCodec.EncodePlan(PlanOf(source, before)))),
      HonestTransfers(disk, tree, Planning.Needed(source, before), id + 1, cl.transfer), true,
      if NoClash(source, before) && FitsTogether(source, before, sl.scan)
      then Arrived(Reply(MessageType.SyncResult, id, 0, EncodeSyncResult(SyncSuccess))) else Failed(PeerGone))
  }

  /**
   * The client's side of it: its frames are the manifest, exactly what the server reads in its
   * sessions, and the end if it gets there; and it reports success exactly if the server does.
   */
  lemma HonestClientSucceedsIff(disk: Disk, tree: Scan.Tree, source: Manifest, before: Manifest, id: u64,
                                cl: SyncLimits, sl: SyncLimits)
    requires Honest(disk, tree, source, before, id, cl, sl)
    ensures |SyncCodec.EncodePlan(PlanOf(source, before))| < U32_LIMIT
    ensures var s := ServerSide(disk, tree, source, before, id, cl, sl);
      var paths := Planning.Needed(source, before);
      var clash, fits := !NoClash(source, before), FitsTogether(source, before, sl.scan);
      ClientRun(tree, source, id, cl, ClientSide(disk, tree, source, before, id, cl, sl))
        == ClientEnd(if clash then UploadFailed else if fits then Synced else FrameFailed,
                     if clash then Clear(disk.files, paths) else if fits then |paths| else 0,
                     [ManifestFrame(source, id)] + ArrivalFrames(s.arrivals) + (if clash then [] else [s.last.frame]))
  {
    hide Crc, SyncCodec.ValidManifest, SyncCodec.EncodeManifest, SyncCodec.EncodePlan, Scan.ManifestOf, Scan.TreeScans,
      Planning.Needed, Planning.Merge, Offers, HonestArrivals, HonestTransfers, ArrivalFrames, FitsTogether, CanSend,
      CanReceive, PlanFailure, NoClash, Clear, ClashFree, Separate;
    var paths := Planning.Needed(source, before);
    Planning.ValidManifestIsSorted(source);
    ManifestsSorted(before, disk.files);
    Planning.MergeMeaning(source, before);
    IdsFit(tree, paths, id + 1, cl.transfer);
    HonestPlanAccepted(source, before, PlanOf(source, before), id, cl.scan.maxEntries);
    ClearIffNoClash(disk.files, tree, source, before);
    HonestOffers(disk, tree, source, paths, id + 1, cl.transfer);
    var frames := ArrivalFrames(HonestArrivals(disk, tree, paths, id + 1, cl.transfer));
    var manifest, end := ManifestFrame(source, id), Reply(MessageType.SyncComplete, id, 0, []);
    assert [manifest] + (frames + [end]) == [manifest] + frames + [end];
    assert [manifest] + frames + [] == [manifest] + frames;
  }
}
