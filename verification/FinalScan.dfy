/**
 * The last check of a synchronisation (src/common/directory_sync.cpp): the destination is scanned
 * once more, under the limits of the first scan. Whether that succeeds after an honest run is
 * decided by the two manifests alone.
 */
module FinalScan {
  import opened Words
  import opened Paths
  import opened Checksum
  import opened PartialStore
  import opened ServerRuns
  import opened SyncCodec
  import opened Planning
  import opened Scan
  import opened SyncRuns

  /** The destination's records of paths the source does not have. */
  function OthersOf(source: Manifest, before: Manifest): (others: Manifest)
    decreases |before|
  {
    if before == [] then []
    else (if HasPath(source, before[0].path) then [] else [before[0]]) + OthersOf(source, before[1..])
  }

  lemma {:induction false} OthersExactly(source: Manifest, before: Manifest)
    ensures |OthersOf(source, before)| == ServerOnly(source, before)
    ensures forall r :: r in OthersOf(source, before) <==> r in before && !HasPath(source, r.path)
    decreases |before|
  {
    hide HasPath;
    if before != [] {
      OthersExactly(source, before[1..]);
      assert forall r :: r in before <==> r == before[0] || r in before[1..];
    }
  }

  lemma {:induction false} OthersDistinct(source: Manifest, before: Manifest)
    requires Distinct(before)
    ensures Distinct(OthersOf(source, before))
    decreases |before|
  {
    hide HasPath;
    if before != [] {
      assert forall j :: 0 <= j < |before[1..]| ==> before[1..][j] == before[j + 1];
      OthersDistinct(source, before[1..]);
      OthersExactly(source, before[1..]);
      var rest := OthersOf(source, before[1..]);
      assert before[0] !in rest;
      assert forall j :: 0 <= j < |rest| ==> rest[j] in rest;
    }
  }

  lemma SortedDistinct(m: Manifest)
    requires Sorted(m)
    ensures Distinct(m)
  {
    forall i, j | 0 <= i < j < |m|
      ensures m[i] != m[j]
    {
      LessAsymmetric(m[i].path, m[j].path);
    }
  }

  /** The records of the tree in which the source has landed on the destination. */
  function Together(source: Manifest, before: Manifest): Manifest
  {
    source + OthersOf(source, before)
  }

  lemma TogetherDistinct(source: Manifest, before: Manifest)
    requires Sorted(source) && Sorted(before)
    ensures Distinct(Together(source, before))
  {
    SortedDistinct(source);
    SortedDistinct(before);
    OthersDistinct(source, before);
    OthersExactly(source, before);
    var others, both := OthersOf(source, before), Together(source, before);
    forall i, j | 0 <= i < j < |both|
      ensures both[i] != both[j]
    {
      if i < |source| <= j {
        assert others[j - |source|] in others;
        assert HasPath(source, source[i].path);
      }
    }
  }

  /** The merged tree stays within the limits on entries and on the size of the manifest. */
  predicate FitsTogether(source: Manifest, before: Manifest, limits: ScanLimits)
  {
    var entries := |source| + ServerOnly(source, before);
    && entries <= limits.maxEntries
    && (entries != 0 ==> 4 + RecordSizes(source) + RecordSizes(OthersOf(source, before)) <= limits.maxEncodedSize)
  }

  /** Every record alone is within the limits. */
  predicate RecordsPass(m: Manifest, limits: ScanLimits)
  {
    forall r :: r in m ==> Safe(r.path) && r.size <= limits.maxFileSize
  }

  // ---------------------------------------------------------------------------
  // The merged tree.
  // ---------------------------------------------------------------------------

  /** The needed files have landed, and nothing else has changed. */
  ghost predicate HasLanded(files: Tree, files': Tree, tree: Tree, source: Manifest, before: Manifest)
  {
    forall p :: if p in Needed(source, before) then MatchesAt(files', tree, p) else SameAt(files, files', p)
  }

  lemma SourceLanded(files: Tree, files': Tree, tree: Tree, source: Manifest, before: Manifest, r: FileRecord)
    requires ManifestOf(source, tree) && ManifestOf(before, files) && HasLanded(files, files', tree, source, before)
      && r in source
    ensures Present(files', r)
  {
    hide Crc, Needed, ManifestOf;
    ManifestMembership(source, tree, r);
    ManifestMembership(before, files, r);
    NeededExactly(source, before, r.path);
    var i :| 0 <= i < |source| && source[i] == r;
  }

  lemma OthersLeft(files: Tree, files': Tree, tree: Tree, source: Manifest, before: Manifest, path: Path)
    requires HasLanded(files, files', tree, source, before) && !HasPath(source, path)
    ensures SameAt(files, files', path)
  {
    hide Needed;
    NeededExactly(source, before, path);
  }

  /** The records of the merged tree are exactly the source's and the others of the destination. */
  lemma TogetherPresent(files: Tree, files': Tree, tree: Tree, source: Manifest, before: Manifest, r: FileRecord)
    requires ManifestOf(source, tree) && ManifestOf(before, files) && HasLanded(files, files', tree, source, before)
    ensures Present(files', r) <==> r in Together(source, before)
  {
    hide Crc, ManifestOf, HasLanded;
    OthersExactly(source, before);
    ManifestMembership(before, files, r);
    if HasPath(source, r.path) {
      var i :| 0 <= i < |source| && source[i].path == r.path;
      assert source[i] in source;
      SourceLanded(files, files', tree, source, before, source[i]);
      if r in source {
        SourceLanded(files, files', tree, source, before, r);
      }
    } else {
      OthersLeft(files, files', tree, source, before, r.path);
      assert forall i :: 0 <= i < |source| ==> source[i].path != r.path;
    }
  }

  lemma LandedSized(files: Tree, files': Tree, tree: Tree, source: Manifest, before: Manifest)
    requires ManifestOf(source, tree) && ManifestOf(before, files) && HasLanded(files, files', tree, source, before)
    ensures forall p :: p in files' ==> |files'[p]| < U64_LIMIT
  {
    hide Crc, Needed;
    forall p | p in files'
      ensures |files'[p]| < U64_LIMIT
    {
      if p in Needed(source, before) {
        assert HasPath(source, p);
        var i :| 0 <= i < |source| && source[i].path == p;
        assert source[i] in source;
      } else {
        assert HasPath(before, p);
        var i :| 0 <= i < |before| && before[i].path == p;
        assert before[i] in before;
      }
    }
  }

  /** The merged tree scans exactly if its entries and the size of its manifest are within the limits. */
  lemma MergedTreeScansIff(files: Tree, files': Tree, tree: Tree, source: Manifest, before: Manifest,
                           limits: ScanLimits)
    requires ManifestOf(source, tree) && ManifestOf(before, files) && HasLanded(files, files', tree, source, before)
    requires RecordsPass(source, limits) && RecordsPass(before, limits)
    ensures TreeScans(files', {}, limits) <==> FitsTogether(source, before, limits)
  {
    hide Crc, Safe, HasLanded, Sorted, OthersOf, RecordSizes, ServerOnly;
    LandedSized(files, files', tree, source, before);
    var listing := SomeOrder(files');
    AnyOrderScans(listing, files', {}, limits);
    ListedRecords(listing, files');
    var both := Together(source, before);
    forall r
      ensures r in Records(listing) <==> r in both
    {
      TogetherPresent(files, files', tree, source, before, r);
    }
    TogetherDistinct(source, before);
    SameRecords(Records(listing), both);
    RecordSizesAppend(source, OthersOf(source, before));
    OthersExactly(source, before);
    forall f | f in listing
      ensures Safe(f.path) && |f.content| <= limits.maxFileSize
    {
      var i :| 0 <= i < |listing| && listing[i] == f;
      assert Records(listing)[i] in both;
    }
  }

  // ---------------------------------------------------------------------------
  // An honest run.
  // ---------------------------------------------------------------------------

  /**
   * The client can start, and the server has room for, every upload of the plan; and both trees are
   * trees of a file system. That the destination has no directory without files in the way of an
   * upload, which no manifest would show, is part of the calls of an honest run succeeding.
   */
  ghost predicate Undisturbed(disk: Disk, tree: Tree, source: Manifest, before: Manifest, id: nat,
                              limits: TransferLimits, l: TransferLimits)
  {
    var paths := Needed(source, before);
    && PartsOk(disk.parts) && ManifestOf(source, tree) && ManifestOf(before, disk.files)
    && ClashFree(tree) && ClashFree(disk.files)
    && CanSend(tree, paths, id, limits) && CanReceive(tree, paths, disk.parts, l) && limits.chunkSize <= l.chunkSize
  }

  /** The destination after an honest run. */
  ghost function HonestEnd(disk: Disk, tree: Tree, source: Manifest, before: Manifest, id: nat,
                           limits: TransferLimits, l: TransferLimits): Progress
    requires Undisturbed(disk, tree, source, before, id, limits, l)
  {
    var paths := Needed(source, before);
    Uploads(disk, paths, id, HonestArrivals(disk, tree, paths, id, limits), l)
  }

  /** No file of either manifest stands where the other needs a directory. */
  predicate NoClash(source: Manifest, before: Manifest)
  {
    forall r, b :: r in source && b in before ==> !Above(r.path, b.path) && !Above(b.path, r.path)
  }

  /** A path of the manifest's tree. */
  lemma PathOf(m: Manifest, tree: Tree, path: Path) returns (r: FileRecord)
    requires ManifestOf(m, tree) && path in tree
    ensures r in m && r.path == path
  {
    hide Crc, Sorted;
    assert HasPath(m, path);
    var i :| 0 <= i < |m| && m[i].path == path;
    r := m[i];
  }

  /** The planned paths are apart from each other, and something is in the way of one exactly if the manifests clash. */
  lemma ClearIffNoClash(files: Tree, tree: Tree, source: Manifest, before: Manifest)
    requires ManifestOf(source, tree) && ManifestOf(before, files) && ClashFree(tree) && ClashFree(files)
    ensures var paths := Needed(source, before);
      Separate(paths) && (Clear(files, paths) == |paths| <==> NoClash(source, before))
  {
    hide Crc, Sorted, Needed, Above;
    var paths := Needed(source, before);
    forall i | 0 <= i < |paths|
      ensures paths[i] in tree && HasPath(source, paths[i])
    {
      NeededExactly(source, before, paths[i]);
      var k :| 0 <= k < |source| && source[k].path == paths[i];
      assert source[k] in source;
    }
    if NoClash(source, before) {
      forall i | 0 <= i < |paths|
        ensures !InTheWay(files, paths[i])
      {
        PlannedIsFree(files, tree, source, before, paths[i]);
      }
    } else {
      var r, b :| r in source && b in before && (Above(r.path, b.path) || Above(b.path, r.path));
      ClashIsPlanned(files, tree, source, before, r, b);
      var i :| 0 <= i < |paths| && paths[i] == r.path;
      assert InTheWay(files, paths[i]);
    }
  }

  lemma PlannedIsFree(files: Tree, tree: Tree, source: Manifest, before: Manifest, path: Path)
    requires ManifestOf(before, files) && NoClash(source, before) && HasPath(source, path)
    ensures !InTheWay(files, path)
  {
    hide Crc, Sorted, Above, ManifestOf;
    var k :| 0 <= k < |source| && source[k].path == path;
    forall p | p in files
      ensures !Above(p, path) && !Above(path, p)
    {
      var b := PathOf(before, files, p);
      assert source[k] in source;
    }
  }

  lemma ClashIsPlanned(files: Tree, tree: Tree, source: Manifest, before: Manifest, r: FileRecord, b: FileRecord)
    requires ManifestOf(source, tree) && ManifestOf(before, files) && ClashFree(files) && r in source && b in before
    requires Above(r.path, b.path) || Above(b.path, r.path)
    ensures r.path in Needed(source, before) && InTheWay(files, r.path)
  {
    hide Crc, Sorted, Needed, Above;
    assert b.path in files;
    NeededExactly(source, before, r.path);
    var i :| 0 <= i < |source| && source[i] == r;
    assert r !in before;
  }

  /**
   * After an honest, undisturbed run, every manifest of the destination leaves exactly the rest of the
   * plan, from the first upload with something in its way: a second synchronisation uploads nothing
   * that the first one did, and nothing at all exactly if the manifests do not clash.
   */
  lemma HonestSyncLeavesTheRest(disk: Disk, tree: Tree, source: Manifest, before: Manifest, id: nat,
                                limits: TransferLimits, l: TransferLimits, after: Manifest)
    requires Undisturbed(disk, tree, source, before, id, limits, l)
    requires ManifestOf(after, HonestEnd(disk, tree, source, before, id, limits, l).disk.files)
    ensures var paths := Needed(source, before);
      Needed(source, after) == Merge(source, after).uploads == paths[Clear(disk.files, paths)..]
    ensures Needed(source, after) == [] <==> NoClash(source, before)
  {
    hide Crc, Uploads, HonestArrivals, CanSend, CanReceive, ManifestOf, Needed, Merge, SameAt, MatchesAt, Clear,
      Separate, NoClash, ClashFree;
    var paths := Needed(source, before);
    var files' := HonestEnd(disk, tree, source, before, id, limits, l).disk.files;
    var n := Clear(disk.files, paths);
    ClearIffNoClash(disk.files, tree, source, before);
    forall r | r in source
      ensures r in after <==> r in before || r.path in paths[..n]
    {
      HonestUploads(disk, tree, paths, id, limits, l, r.path);
      RecordLands(disk.files, files', tree, source, before, after, paths[..n], r);
    }
    ManifestsSorted(source, tree);
    ManifestsSorted(after, files');
    RestNeeded(source, before, after, n);
    MergeMeaning(source, after);
  }

  /**
   * An honest, undisturbed run completes its uploads up to the first with a file or a directory in its
   * way. There is none exactly if the manifests do not clash. Then every source record is present, and
   * the final scan succeeds exactly if the source's records and the destination's others together are
   * within the limits: all that the two manifests tell before the first upload.
   */
  lemma HonestScanIff(disk: Disk, tree: Tree, source: Manifest, before: Manifest, id: nat,
                      limits: TransferLimits, l: TransferLimits, scan: ScanLimits)
    requires Undisturbed(disk, tree, source, before, id, limits, l)
    requires RecordsPass(source, scan) && RecordsPass(before, scan)
    ensures var p, paths := HonestEnd(disk, tree, source, before, id, limits, l), Needed(source, before);
      && p.completed == Clear(disk.files, paths)
      && p.failed == (if NoClash(source, before) then None else Some(UploadFailed))
      && (NoClash(source, before) <==> p.completed == |paths|)
      && (NoClash(source, before) ==>
            && (forall r :: r in source ==> Present(p.disk.files, r))
            && (TreeScans(p.disk.files, {}, scan) <==> FitsTogether(source, before, scan)))
  {
    hide Crc, Uploads, HonestArrivals, Needed, ManifestOf, MatchesAt, SameAt, CanSend, CanReceive, RecordsPass, Present,
      TreeScans, FitsTogether, Clear, NoClash, ClashFree, Separate;
    var paths := Needed(source, before);
    var p := HonestEnd(disk, tree, source, before, id, limits, l);
    ClearIffNoClash(disk.files, tree, source, before);
    HonestUploads(disk, tree, paths, id, limits, l, []);
    if NoClash(source, before) {
      assert paths[..|paths|] == paths;
      forall path
        ensures if path in paths then MatchesAt(p.disk.files, tree, path) else SameAt(disk.files, p.disk.files, path)
      {
        HonestUploads(disk, tree, paths, id, limits, l, path);
      }
      assert HasLanded(disk.files, p.disk.files, tree, source, before);
      forall r | r in source
        ensures Present(p.disk.files, r)
      {
        SourceLanded(disk.files, p.disk.files, tree, source, before, r);
      }
      MergedTreeScansIff(disk.files, p.disk.files, tree, source, before, scan);
    }
  }
}
