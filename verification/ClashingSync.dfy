/**
 * A file on one side where the other needs a directory: the synchronisation of two such trees fails,
 * although both scan and together they are within all limits.
 */
module ClashingSync {
  import opened Words
  import opened Wire
  import opened Paths
  import opened Checksum
  import opened TransferCodec
  import opened PartialStore
  import opened SyncCodec
  import opened Planning
  import opened Scan
  import opened SyncRuns
  import opened FinalScan
  import opened DirectorySync
  import opened HonestSync

  /** A tree with one empty file. */
  function One(path: Path): Tree {
    map[path := []]
  }

  function OneRecord(path: Path): Manifest {
    Records([DiskFile(path, [])])
  }

  lemma OneDescribes(path: Path)
    requires Safe(path)
    ensures ManifestOf(OneRecord(path), One(path)) && TreeScans(One(path), {}, DEFAULT_LIMITS) && ClashFree(One(path))
    ensures |OneRecord(path)| == 1 && OneRecord(path)[0].path == path && OneRecord(path)[0].size == 0
    ensures RecordSizes(OneRecord(path)) == 14 + |path|
  {
    hide Crc, Safe;
    SafeLength(path);
    var files := [DiskFile(path, [])];
    assert files[0].path == path;
    assert Enumerates(files, One(path));
    ScanDescribesTree(files, One(path), OneRecord(path));
    assert OneRecord(path)[1..] == [];
    assert RecordSizes(OneRecord(path)) == 14 + |path|;
    assert Scannable(files, {}, DEFAULT_LIMITS);
  }

  lemma OneNeeded(p: Path, q: Path)
    requires p != q
    ensures Needed(OneRecord(q), OneRecord(p)) == [q]
    ensures ServerOnly(OneRecord(q), OneRecord(p)) == 1 && OthersOf(OneRecord(q), OneRecord(p)) == OneRecord(p)
  {
    hide Crc;
    assert OneRecord(p)[1..] == [] && OneRecord(q)[1..] == [];
    assert OneRecord(q)[0] !in OneRecord(p);
    assert !HasPath(OneRecord(q), p);
  }

  lemma OneFits(path: Path)
    requires Safe(path)
    ensures FitsFrame(OneRecord(path))
  {
    hide Crc, Safe, Sorted;
    OneDescribes(path);
    SafeLength(path);
    ManifestsSorted(OneRecord(path), One(path));
    ValidManifestIsSorted(OneRecord(path));
    EntrySizes(OneRecord(path));
  }

  lemma OneUndisturbed(p: Path, q: Path)
    requires Safe(p) && Safe(q) && p != q
    ensures Undisturbed(Disk(map[], One(p)), One(q), OneRecord(q), OneRecord(p), 2, DEFAULT_TRANSFER, DEFAULT_TRANSFER)
  {
    hide Crc, Safe, Needed, ServerOnly, OthersOf, ManifestOf, TreeScans, OneRecord, ClashFree, Admits;
    OneDescribes(p);
    OneDescribes(q);
    OneNeeded(p, q);
    var disk := Disk(map[], One(p));
    NothingStored(MetaOf(One(q), q), DEFAULT_TRANSFER);
    assert CanSend(One(q), [q], 2, DEFAULT_TRANSFER);
    assert CanReceive(One(q), [q], disk.parts, DEFAULT_TRANSFER);
  }

  /** The synchronisation of the file `q` to a destination with the file `p`. */
  lemma OneToOne(p: Path, q: Path)
    requires Safe(p) && Safe(q) && p != q
    ensures Honest(Disk(map[], One(p)), One(q), OneRecord(q), OneRecord(p), 1, DEFAULTS, DEFAULTS)
    ensures FitsTogether(OneRecord(q), OneRecord(p), DEFAULT_LIMITS)
  {
    hide Crc, Safe, ServerOnly, OthersOf, TreeScans, RecordSizes, OneRecord, Undisturbed, ClashFree, ManifestOf, Needed;
    SafeLength(p);
    SafeLength(q);
    OneDescribes(p);
    OneDescribes(q);
    OneNeeded(p, q);
    OneFits(q);
    OneUndisturbed(p, q);
  }

  /**
   * The honest synchronisation of the file `q` to a destination with the file `p`, both scannable and
   * together within the limits, fails: nothing is uploaded and the destination stays as it was.
   */
  ghost predicate SyncRefused(p: Path, q: Path)
  {
    var disk, source, before := Disk(map[], One(p)), OneRecord(q), OneRecord(p);
    && Honest(disk, One(q), source, before, 1, DEFAULTS, DEFAULTS)
    && FitsTogether(source, before, DEFAULTS.scan) && !NoClash(source, before)
    && var c := ServerSide(disk, One(q), source, before, 1, DEFAULTS, DEFAULTS);
       var end := SyncRun(disk, ManifestFrame(source, 1), DEFAULTS, c);
       && end.report.status == UploadFailed && end.report.completed == 0 && end.result == []
       && end.disk.files == disk.files
  }

  /** So it is for any two safe paths of which one is a directory on the way to the other. */
  lemma ClashAlwaysFails(p: Path, q: Path)
    requires Safe(p) && Safe(q) && (Above(p, q) || Above(q, p))
    ensures SyncRefused(p, q)
  {
    assert p != q;
    hide Crc, Safe, Needed, ManifestOf, TreeScans, OneRecord, Honest, SyncRun, ServerSide, FitsTogether, Above,
      HonestAnswers, Uploads, HonestArrivals;
    OneToOne(p, q);
    OneDescribes(p);
    OneDescribes(q);
    OneNeeded(p, q);
    assert OneRecord(p)[0] in OneRecord(p) && OneRecord(q)[0] in OneRecord(q);
    var disk := Disk(map[], One(p));
    HonestSyncSucceedsIff(disk, One(q), OneRecord(q), OneRecord(p), 1, DEFAULTS, DEFAULTS);
    assert p in disk.files;
    assert InTheWay(disk.files, q);
    StaysAsItWas(disk, p, q);
  }

  lemma StaysAsItWas(disk: Disk, p: Path, q: Path)
    requires Undisturbed(disk, One(q), OneRecord(q), OneRecord(p), 2, DEFAULT_TRANSFER, DEFAULT_TRANSFER)
    requires Needed(OneRecord(q), OneRecord(p)) == [q] && InTheWay(disk.files, q)
    ensures var l := DEFAULT_TRANSFER;
      HonestEnd(disk, One(q), OneRecord(q), OneRecord(p), 2, l, l).disk.files == disk.files
  {
    hide Crc, Needed, ManifestOf, OneRecord, Uploads, HonestArrivals, InTheWay, CanSend, CanReceive, ClashFree;
    HonestSplit(disk, One(q), [q], 2, DEFAULT_TRANSFER, DEFAULT_TRANSFER);
  }

  /** The file `a` where the source has `a/b`, and `a/b` where the source has `a`. */
  lemma FileAgainstDirectory()
    ensures SyncRefused([97], [97, SLASH, 98]) && SyncRefused([97, SLASH, 98], [97])
  {
    hide SyncRefused;
    AClashesWithAB();
    ClashAlwaysFails([97], [97, SLASH, 98]);
    ClashAlwaysFails([97, SLASH, 98], [97]);
  }

  lemma AClashesWithAB()
    ensures var a, ab := [97], [97, SLASH, 98];
      Safe(a) && Safe(ab) && Above(a, ab)
  {
    var a, ab := [97], [97, SLASH, 98];
    assert FirstSlash(a) == 1 && Split(a) == [a];
    assert ab[..1] == a && FirstSlash(ab) == 1 && ab[2..] == [98];
    assert FirstSlash([98]) == 1 && Split([98]) == [[98]];
    assert Split(ab) == [a, [98]];
  }
}
