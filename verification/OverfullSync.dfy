/**
 * Two trees that scan and synchronise without any failure, and still fail the final check: as many
 * files in the source as a scan accepts, and one more in the destination.
 */
module OverfullSync {
  import opened Words
  import opened Paths
  import opened Checksum
  import opened TransferCodec
  import opened PartialStore
  import opened SyncCodec
  import opened Planning
  import opened Scan
  import opened SyncRuns
  import opened FinalScan
  import opened DirectorySync
  import opened HonestSync

  const MOST: nat := 4096

  /** A two-byte name for each number; the names are in the order of the numbers. */
  function Name(i: nat): Path
    requires i < MOST
  {
    [97 + i / 64, 97 + i % 64]
  }

  const ODD_ONE: Path := [97]

  lemma PlainNameIsSafe(path: Path)
    requires 1 <= |path| <= 2 && forall i :: 0 <= i < |path| ==> 97 <= path[i]
    ensures Safe(path)
  {
    assert FirstSlash(path) == |path|;
    assert Split(path) == [path];
  }

  lemma NamesAscend(i: nat, j: nat)
    requires i < j < MOST
    ensures Less(Name(i), Name(j))
  {
    var a, b := Name(i), Name(j);
    assert a[1..] == [a[1]] && b[1..] == [b[1]];
    assert Less([a[1]], [b[1]]) <==> a[1] < b[1] || (a[1] == b[1] && Less([a[1]][1..], [b[1]][1..]));
    assert i == 64 * (i / 64) + i % 64 && j == 64 * (j / 64) + j % 64;
  }

  function Empties(n: nat): (tree: Tree)
    requires n <= MOST
  {
    if n == 0 then map[] else Empties(n - 1)[Name(n - 1) := []]
  }

  lemma {:induction false} EmptiesAre(n: nat)
    requires n <= MOST
    ensures forall p :: p in Empties(n) <==> exists i :: 0 <= i < n && Name(i) == p
    ensures forall p :: p in Empties(n) ==> Empties(n)[p] == []
  {
    if n != 0 {
      EmptiesAre(n - 1);
    }
  }

  function Listing(n: nat): (files: seq<DiskFile>)
    requires n <= MOST
    ensures |files| == n && forall i :: 0 <= i < n ==> files[i] == DiskFile(Name(i), [])
  {
    seq(n, i requires 0 <= i < n => DiskFile(Name(i), []))
  }

  function Source(n: nat): Manifest
    requires n <= MOST
  {
    Records(Listing(n))
  }

  lemma SourceDescribes(n: nat)
    requires n <= MOST
    ensures Enumerates(Listing(n), Empties(n)) && ManifestOf(Source(n), Empties(n))
  {
    hide Crc, Less;
    EmptiesAre(n);
    var files, source := Listing(n), Source(n);
    forall i, j | 0 <= i < j < n
      ensures files[i].path != files[j].path && Less(source[i].path, source[j].path)
    {
      NamesAscend(i, j);
      LessAsymmetric(Name(i), Name(j));
    }
    assert Sorted(source);
    forall p | p in Empties(n)
      ensures exists i :: 0 <= i < |files| && files[i].path == p
    {
      var i :| 0 <= i < n && Name(i) == p;
      assert files[i].path == p;
    }
    ScanDescribesTree(files, Empties(n), source);
  }

  lemma {:induction false} SourceSize(n: nat)
    requires n <= MOST
    ensures RecordSizes(Source(n)) == 16 * n
  {
    hide Crc;
    if n != 0 {
      SourceSize(n - 1);
      var last := Source(n)[n - 1];
      assert Source(n) == Source(n - 1) + [last];
      RecordSizesAppend(Source(n - 1), [last]);
      assert RecordSizes([last]) == 16 + RecordSizes([last][1..]) && [last][1..] == [];
    }
  }

  lemma SourceSafe(n: nat)
    requires n <= MOST
    ensures forall f :: f in Listing(n) ==> Safe(f.path) && f.content == []
    ensures forall r :: r in Source(n) ==> Safe(r.path) && r.size == 0
  {
    hide Safe, Crc;
    forall i | 0 <= i < n
      ensures Safe(Name(i))
    {
      PlainNameIsSafe(Name(i));
    }
  }

  /** The scan limits that take `n` of the files, and no more. */
  ghost predicate Room(limits: ScanLimits, n: nat)
  {
    limits.maxEntries == n && 4 + 16 * n <= limits.maxEncodedSize
  }

  lemma SourceScans(n: nat, limits: ScanLimits)
    requires n <= MOST && Room(limits, n)
    ensures TreeScans(Empties(n), {}, limits)
  {
    hide Safe, Crc;
    SourceDescribes(n);
    SourceSafe(n);
    SourceSize(n);
    assert Scannable(Listing(n), {}, limits);
  }

  // ---------------------------------------------------------------------------
  // The destination.
  // ---------------------------------------------------------------------------

  const DESTINATION: Disk := Disk(map[], map[ODD_ONE := []])

  function Before(): Manifest
  {
    Records([DiskFile(ODD_ONE, [])])
  }

  lemma BeforeDescribes(limits: ScanLimits)
    requires 1 <= limits.maxEntries && 20 <= limits.maxEncodedSize
    ensures ManifestOf(Before(), DESTINATION.files) && TreeScans(DESTINATION.files, {}, limits)
    ensures |Before()| == 1 && Before()[0].path == ODD_ONE
  {
    hide Crc, Safe;
    var files := [DiskFile(ODD_ONE, [])];
    assert files[0].path == ODD_ONE;
    assert Enumerates(files, DESTINATION.files);
    ScanDescribesTree(files, DESTINATION.files, Before());
    PlainNameIsSafe(ODD_ONE);
    assert Before()[1..] == [];
    assert RecordSizes(Before()) == 15;
    assert Scannable(files, {}, limits);
  }

  /** No name is the odd one, so all of the source is needed and the odd one is the server's own. */
  lemma {:induction false} AllNeeded(source: Manifest, before: Manifest)
    requires |before| == 1 && forall r :: r in source ==> r.path != before[0].path
    ensures |Needed(source, before)| == |source|
    ensures forall i :: 0 <= i < |source| ==> Needed(source, before)[i] == source[i].path
    decreases |source|
  {
    if source != [] {
      assert source[0] in source;
      AllNeeded(source[1..], before);
    }
  }

  lemma OneOther(source: Manifest, before: Manifest)
    requires |before| == 1 && forall r :: r in source ==> r.path != before[0].path
    ensures ServerOnly(source, before) == 1
  {
    assert forall i :: 0 <= i < |source| ==> source[i] in source;
    assert before[1..] == [];
  }

  lemma OddOneOut(n: nat)
    requires n <= MOST
    ensures forall r :: r in Source(n) ==> r.path != ODD_ONE
  {
    hide Crc;
    forall r | r in Source(n)
      ensures r.path != ODD_ONE
    {
      var i :| 0 <= i < n && Source(n)[i] == r;
      assert |Name(i)| == 2;
    }
  }

  lemma AllPathsEmpty(n: nat, i: nat)
    requires i < n <= MOST
    ensures |Before()| == 1 && |Needed(Source(n), Before())| == n
    ensures var p := Needed(Source(n), Before())[i]; p in Empties(n) && Safe(p) && Empties(n)[p] == []
  {
    hide Crc, Safe, Empties, Needed;
    OddOneOut(n);
    SourceSafe(n);
    AllNeeded(Source(n), Before());
    EmptiesAre(n);
    assert Source(n)[i] in Source(n) && Source(n)[i].path == Name(i);
  }

  /** Names without a slash need no directory. */
  lemma NoSlashNoDirectory(a: Path, b: Path)
    requires forall i :: 0 <= i < |b| ==> b[i] != SLASH
    ensures !Above(a, b)
  {
  }

  lemma NamesApart(n: nat)
    requires n <= MOST
    ensures ClashFree(Empties(n)) && ClashFree(DESTINATION.files) && NoClash(Source(n), Before())
  {
    hide Crc, Empties, Above;
    EmptiesAre(n);
    forall a, i | 0 <= i < n
      ensures !Above(a, Name(i))
    {
      NoSlashNoDirectory(a, Name(i));
    }
    forall a
      ensures !Above(a, ODD_ONE)
    {
      NoSlashNoDirectory(a, ODD_ONE);
    }
  }

  lemma NothingInTheWay(n: nat, id: u64, limits: TransferLimits)
    requires n <= MOST && 0 < id && id + 1 + n <= U64_LIMIT && ValidLimits(limits) && 1 <= limits.maxPartialFiles
    ensures |Before()| == 1 && Undisturbed(DESTINATION, Empties(n), Source(n), Before(), id + 1, limits, limits)
  {
    hide Crc, Safe, Empties, Source, Before, Needed, Admits, ManifestOf, ClashFree, NoClash;
    NamesApart(n);
    SourceDescribes(n);
    BeforeDescribes(ScanLimits(1, 0, 20));
    SourceFits(n);
    OddOneOut(n);
    AllNeeded(Source(n), Before());
    var tree, paths := Empties(n), Needed(Source(n), Before());
    forall i | 0 <= i < |paths|
      ensures paths[i] in tree && Safe(paths[i]) && tree[paths[i]] == []
    {
      AllPathsEmpty(n, i);
    }
    assert CanSend(tree, paths, id + 1, limits);
    forall i | 0 <= i < |paths|
      ensures Admits(DESTINATION.parts, MetaOf(tree, paths[i]), limits)
    {
      NothingStored(MetaOf(tree, paths[i]), limits);
    }
    assert CanReceive(tree, paths, DESTINATION.parts, limits);
  }

  /**
   * Under every limit on entries up to 4096 (with room for that many short names), the final check
   * of some honest, undisturbed synchronisation without any clash fails: all `n` uploads complete, and
   * the last scan finds one file too many. The first scans of either tree found nothing wrong.
   */
  lemma FinalCheckCanFail(n: nat, limits: SyncLimits, id: u64)
    requires 1 <= n <= MOST && Room(limits.scan, n)
    requires 0 < id && id + 1 + n <= U64_LIMIT && ValidLimits(limits.transfer) && 1 <= limits.transfer.maxPartialFiles
    ensures Honest(DESTINATION, Empties(n), Source(n), Before(), id, limits, limits)
    ensures NoClash(Source(n), Before()) && !FitsTogether(Source(n), Before(), limits.scan)
    ensures var l := limits.transfer;
      HonestEnd(DESTINATION, Empties(n), Source(n), Before(), id + 1, l, l).completed == n
    ensures var end := SyncRun(DESTINATION, ManifestFrame(Source(n), id), limits,
                               ServerSide(DESTINATION, Empties(n), Source(n), Before(), id, limits, limits));
      end.report.status == ScanFailed && end.result == []
  {
    hide Crc, Safe, Undisturbed, Empties, Source, Before, TreeScans, RecordSizes, Needed, SyncRun, ServerSide,
      EncodeManifest, ServerOnly, NoClash, HonestEnd, Clear, HonestAnswers;
    NamesApart(n);
    SourceScans(n, limits.scan);
    BeforeDescribes(limits.scan);
    NothingInTheWay(n, id, limits.transfer);
    SourceFits(n);
    OddOneOut(n);
    OneOther(Source(n), Before());
    AllNeeded(Source(n), Before());
    SourceSafe(n);
    HonestSyncSucceedsIff(DESTINATION, Empties(n), Source(n), Before(), id, limits, limits);
    BeforePasses(DESTINATION.files, Before(), limits.scan);
    SourcePasses(Source(n), limits.scan);
    HonestScanIff(DESTINATION, Empties(n), Source(n), Before(), id + 1, limits.transfer, limits.transfer, limits.scan);
  }

  lemma SourceFits(n: nat)
    requires n <= MOST
    ensures |Source(n)| == n && FitsFrame(Source(n))
  {
    hide Crc, Safe, Sorted;
    SourceDescribes(n);
    SourceSafe(n);
    SourceSize(n);
    ValidManifestIsSorted(Source(n));
    EntrySizes(Source(n));
  }

  /** In particular under the limits the server runs with. */
  lemma DefaultLimitsCanFail()
    ensures Honest(DESTINATION, Empties(MOST), Source(MOST), Before(), 1, DEFAULTS, DEFAULTS)
    ensures var c := ServerSide(DESTINATION, Empties(MOST), Source(MOST), Before(), 1, DEFAULTS, DEFAULTS);
      SyncRun(DESTINATION, ManifestFrame(Source(MOST), 1), DEFAULTS, c).report.status == ScanFailed
  {
    hide Honest, Empties, Source, Before, SyncRun, ServerSide;
    FinalCheckCanFail(MOST, DEFAULTS, 1);
  }
}
