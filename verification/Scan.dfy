/** Scanning a tree into a manifest (src/common/directory_manifest.cpp). */
module Scan {
  import opened Words
  import opened Wire
  import opened Paths
  import opened Bits
  import opened Checksum
  import opened SyncCodec
  import opened Planning

  const READ_SIZE: nat := 0x1_0000

  /** A regular file met by the traversal. */
  datatype DiskFile = DiskFile(path: Path, content: Bytes)

  datatype ScanLimits = ScanLimits(maxEntries: nat, maxFileSize: u64, maxEncodedSize: nat)

  const DEFAULT_LIMITS: ScanLimits := ScanLimits(4096, 0x4000_0000, DEFAULT_MAX_PAYLOAD)

  datatype ScanError = FileIoError | UnsafeRelativePath | TooManyFiles | FileTooLarge | ManifestTooLarge

  function RecordFor(path: Path, content: Bytes): FileRecord
    requires |content| < U64_LIMIT
  {
    CrcRange(content);
    FileRecord(path, |content|, Crc(content))
  }

  /** The records of the files, in the order the traversal met them. */
  function Records(files: seq<DiskFile>): (records: Manifest)
    requires forall f :: f in files ==> |f.content| < U64_LIMIT
    ensures |records| == |files|
  {
    seq(|files|, i requires 0 <= i < |files| => RecordFor(files[i].path, files[i].content))
  }

  /** `checksum_file`: the checksum of a file read through a 64 KiB buffer. */
  method ChecksumFile(content: Bytes) returns (checksum: nat)
    ensures checksum == Crc(content)
  {
    hide FeedByte, Xor, BitsNat;
    var running := new Crc32();
    var position := 0;
    while position < |content|
      invariant 0 <= position <= |content|
      invariant running.state == Feed(ONES, content[..position])
      decreases |content| - position
    {
      var count := if |content| - position < READ_SIZE then |content| - position else READ_SIZE;
      FeedAppend(ONES, content[..position], content[position..position + count]);
      assert content[..position] + content[position..position + count] == content[..position + count];
      running.Update(content[position..position + count]);
      position := position + count;
    }
    assert content[..position] == content;
    checksum := running.Value();
  }

  /** The files a scan accepts; the order of the traversal does not matter. */
  ghost predicate Scannable(files: seq<DiskFile>, unreadable: set<Path>, limits: ScanLimits)
  {
    && |files| <= limits.maxEntries
    && (forall f :: f in files ==>
          Safe(f.path) && |f.content| <= limits.maxFileSize && f.path !in unreadable)
    && (files != [] ==> 4 + RecordSizes(Records(files)) <= limits.maxEncodedSize)
  }

  lemma {:induction false} RecordSizesAppend(a: Manifest, b: Manifest)
    ensures RecordSizes(a + b) == RecordSizes(a) + RecordSizes(b)
  {
    if a == [] {
      assert a + b == b;
    } else {
      assert (a + b)[1..] == a[1..] + b;
      RecordSizesAppend(a[1..], b);
    }
  }

  /** The running size after one more file, and the fact that it never shrinks. */
  lemma SizeAfter(files: seq<DiskFile>, i: nat)
    requires i < |files| && forall f :: f in files[..i + 1] ==> |f.content| < U64_LIMIT
    ensures Records(files[..i + 1]) == Records(files[..i]) + [RecordFor(files[i].path, files[i].content)]
    ensures RecordSizes(Records(files[..i + 1])) == RecordSizes(Records(files[..i])) + 14 + |files[i].path|
  {
    var last := RecordFor(files[i].path, files[i].content);
    assert files[..i + 1] == files[..i] + [files[i]];
    assert Records(files[..i + 1]) == Records(files[..i]) + [last];
    RecordSizesAppend(Records(files[..i]), [last]);
    assert RecordSizes([last]) == 14 + |last.path|;
  }

  lemma PrefixIsSmaller(files: seq<DiskFile>, i: nat)
    requires i <= |files| && forall f :: f in files ==> |f.content| < U64_LIMIT
    ensures RecordSizes(Records(files[..i])) <= RecordSizes(Records(files))
  {
    assert files == files[..i] + files[i..];
    assert Records(files) == Records(files[..i]) + Records(files[i..]);
    RecordSizesAppend(Records(files[..i]), Records(files[i..]));
  }

  /** The traversal gets as far as file `i`, and stops there with this error. */
  ghost predicate StopsAt(files: seq<DiskFile>, i: nat, unreadable: set<Path>, limits: ScanLimits, error: ScanError)
  {
    && i < |files| && Scannable(files[..i], unreadable, limits)
    && var path, size := files[i].path, |files[i].content|;
       if i >= limits.maxEntries then error == TooManyFiles
       else if !Safe(path) then error == UnsafeRelativePath
       else if size > limits.maxFileSize then error == FileTooLarge
       else if 4 + RecordSizes(Records(files[..i])) + 14 + |path| > limits.maxEncodedSize then error == ManifestTooLarge
       else path in unreadable && error == FileIoError
  }

  /**
   * `scan_directory` over the regular files in traversal order: accepts exactly the scannable
   * trees, and yields their records sorted by path; else the first file in the way decides the error.
   */
  method ScanDirectory(files: seq<DiskFile>, unreadable: set<Path>, limits: ScanLimits)
    returns (r: Result<Manifest, ScanError>)
    requires forall i, j :: 0 <= i < j < |files| ==> files[i].path != files[j].path
    ensures r.Ok? <==> Scannable(files, unreadable, limits)
    ensures r.Ok? ==> multiset(r.value) == multiset(Records(files)) && Sorted(r.value)
    ensures r.Err? ==> exists i :: StopsAt(files, i, unreadable, limits, r.error)
  {
    hide Safe, Crc, Sorted;
    var records: Manifest := [];
    var encodedSize := 4;
    for i := 0 to |files|
      invariant |records| == i <= limits.maxEntries
      invariant forall f :: f in files[..i] ==>
        Safe(f.path) && |f.content| <= limits.maxFileSize && f.path !in unreadable
      invariant records == Records(files[..i])
      invariant encodedSize == 4 + RecordSizes(records)
      invariant i != 0 ==> encodedSize <= limits.maxEncodedSize
    {
      var file := files[i];
      assert Scannable(files[..i], unreadable, limits);
      if |records| >= limits.maxEntries {
        assert StopsAt(files, i, unreadable, limits, TooManyFiles);
        return Err(TooManyFiles);
      }
      var safe := IsSafeRemotePath(file.path);
      if !safe {
        assert StopsAt(files, i, unreadable, limits, UnsafeRelativePath);
        return Err(UnsafeRelativePath);
      }
      if |file.content| > limits.maxFileSize {
        assert StopsAt(files, i, unreadable, limits, FileTooLarge);
        return Err(FileTooLarge);
      }
      var recordSize := 2 + 8 + 4 + |file.path|;
      assert files[..i + 1] == files[..i] + [file];
      SizeAfter(files, i);
      if recordSize > limits.maxEncodedSize || encodedSize > limits.maxEncodedSize - recordSize {
        if Scannable(files, unreadable, limits) {
          PrefixIsSmaller(files, i + 1);
          assert false;
        }
        assert StopsAt(files, i, unreadable, limits, ManifestTooLarge);
        return Err(ManifestTooLarge);
      }
      if file.path in unreadable {
        assert StopsAt(files, i, unreadable, limits, FileIoError);
        return Err(FileIoError);
      }
      var checksum := ChecksumFile(file.content);
      CrcRange(file.content);
      records := records + [FileRecord(file.path, |file.content|, checksum)];
      encodedSize := encodedSize + recordSize;
    }
    assert files[..|files|] == files;
    forall i, j | 0 <= i < j < |records|
      ensures records[i].path != records[j].path
    {
    }
    records := SortByPath(records);
    return Ok(records);
  }

  /** `std::ranges::sort` by path, as insertion; distinct paths come out strictly increasing. */
  method SortByPath(records: Manifest) returns (sorted: Manifest)
    requires forall i, j :: 0 <= i < j < |records| ==> records[i].path != records[j].path
    ensures multiset(sorted) == multiset(records) && Sorted(sorted)
  {
    hide Less;
    sorted := [];
    for i := 0 to |records|
      invariant multiset(sorted) == multiset(records[..i]) && Sorted(sorted)
    {
      var r := records[i];
      assert records[..i + 1] == records[..i] + [r];
      forall s | s in sorted
        ensures s.path != r.path
      {
        assert s in multiset(records[..i]);
      }
      sorted := Insert(sorted, r);
    }
    assert records[..|records|] == records;
  }

  method Insert(sorted: Manifest, r: FileRecord) returns (sorted': Manifest)
    requires Sorted(sorted) && forall s :: s in sorted ==> s.path != r.path
    ensures multiset(sorted') == multiset(sorted) + multiset{r} && Sorted(sorted')
  {
    hide Less;
    var k := 0;
    while k < |sorted| && Less(sorted[k].path, r.path)
      invariant 0 <= k <= |sorted|
      invariant forall i :: 0 <= i < k ==> Less(sorted[i].path, r.path)
    {
      k := k + 1;
    }
    assert sorted == sorted[..k] + sorted[k..];
    InsertSorted(sorted, r, k);
    sorted' := sorted[..k] + [r] + sorted[k..];
  }

  lemma InsertSorted(sorted: Manifest, r: FileRecord, k: nat)
    requires Sorted(sorted) && k <= |sorted| && forall s :: s in sorted ==> s.path != r.path
    requires forall i :: 0 <= i < k ==> Less(sorted[i].path, r.path)
    requires k < |sorted| ==> !Less(sorted[k].path, r.path)
    ensures Sorted(sorted[..k] + [r] + sorted[k..])
  {
    hide Less;
    forall j | k <= j < |sorted|
      ensures Less(r.path, sorted[j].path)
    {
      LessTotal(sorted[k].path, r.path);
      assert sorted[k] in sorted;
      if j != k {
        LessTransitive(r.path, sorted[k].path, sorted[j].path);
      }
    }
    var all := sorted[..k] + [r] + sorted[k..];
    forall i, j | 0 <= i < j < |all|
      ensures Less(all[i].path, all[j].path)
    {
      assert all[i] == if i < k then sorted[i] else if i == k then r else sorted[i - 1];
      assert all[j] == if j < k then sorted[j] else if j == k then r else sorted[j - 1];
    }
  }

  // ---------------------------------------------------------------------------
  // Size accounting.
  // ---------------------------------------------------------------------------

  /** The encoded size does not depend on the order of the records. */
  lemma {:induction false} SizesPermute(a: Manifest, b: Manifest)
    requires multiset(a) == multiset(b)
    ensures RecordSizes(a) == RecordSizes(b)
    decreases |a|
  {
    if a == [] {
      assert |multiset(b)| == 0;
    } else {
      assert a == [a[0]] + a[1..];
      assert a[0] in multiset(a);
      assert a[0] in b;
      var k :| 0 <= k < |b| && b[k] == a[0];
      TakeOut(b, k);
      assert multiset(a) == multiset{a[0]} + multiset(a[1..]);
      var rest := multiset(b[..k] + b[k + 1..]);
      assert multiset(a[1..]) == multiset(a) - multiset{a[0]};
      assert rest == multiset(b) - multiset{b[k]};
      assert multiset(a[1..]) == multiset(b[..k] + b[k + 1..]);
      SizesPermute(a[1..], b[..k] + b[k + 1..]);
    }
  }

  lemma TakeOut(b: Manifest, k: nat)
    requires k < |b|
    ensures multiset(b) == multiset(b[..k] + b[k + 1..]) + multiset{b[k]}
    ensures RecordSizes(b) == RecordSizes(b[..k] + b[k + 1..]) + 14 + |b[k].path|
  {
    var tail := [b[k]] + b[k + 1..];
    assert b == b[..k] + tail && tail[1..] == b[k + 1..];
    RecordSizesAppend(b[..k], tail);
    RecordSizesAppend(b[..k], b[k + 1..]);
  }

  /**
   * The scanner's running size is the length of the encoded manifest, in whatever order the files
   * were met, so a scan within a frame-sized limit always encodes into one frame.
   */
  lemma ScanFitsFrame(files: seq<DiskFile>, unreadable: set<Path>, limits: ScanLimits, records: Manifest)
    requires Scannable(files, unreadable, limits) && limits.maxEntries < U32_LIMIT
    requires multiset(records) == multiset(Records(files)) && Sorted(records)
    ensures ValidManifest(records)
    ensures |EncodeManifest(records)| == 4 + RecordSizes(Records(files))
    ensures 4 <= limits.maxEncodedSize ==> |EncodeManifest(records)| <= limits.maxEncodedSize
  {
    hide Safe, Sorted, Ordered, EntryBytes;
    SizesPermute(records, Records(files));
    EntrySizes(records);
    assert |multiset(records)| == |records| && |multiset(Records(files))| == |files|;
    forall r | r in records
      ensures Safe(r.path)
    {
      assert r in multiset(Records(files));
    }
    ValidManifestIsSorted(records);
    if files == [] {
      assert Records(files) == [];
    }
  }

  // ---------------------------------------------------------------------------
  // Manifests of trees.
  // ---------------------------------------------------------------------------

  type Tree = map<Path, Bytes>

  /** `m` describes exactly the files of `tree`. */
  ghost predicate ManifestOf(m: Manifest, tree: Tree)
  {
    && Sorted(m)
    && (forall r :: r in m ==> r.path in tree && |tree[r.path]| < U64_LIMIT && r == RecordFor(r.path, tree[r.path]))
    && (forall p :: p in tree ==> HasPath(m, p))
  }

  /** `files` lists exactly the files of `tree`, each once. */
  ghost predicate Enumerates(files: seq<DiskFile>, tree: Tree)
  {
    && (forall i, j :: 0 <= i < j < |files| ==> files[i].path != files[j].path)
    && (forall f :: f in files ==> f.path in tree && tree[f.path] == f.content && |f.content| < U64_LIMIT)
    && (forall p :: p in tree ==> exists i :: 0 <= i < |files| && files[i].path == p)
  }

  /** Any traversal order of a tree scans to the manifest of that tree. */
  lemma ScanDescribesTree(files: seq<DiskFile>, tree: Tree, records: Manifest)
    requires Enumerates(files, tree)
    requires multiset(records) == multiset(Records(files)) && Sorted(records)
    ensures ManifestOf(records, tree)
  {
    hide Sorted, Crc;
    forall r | r in records
      ensures r.path in tree && |tree[r.path]| < U64_LIMIT && r == RecordFor(r.path, tree[r.path])
    {
      assert r in multiset(Records(files));
      var i :| 0 <= i < |files| && Records(files)[i] == r;
      assert files[i] in files;
    }
    forall p | p in tree
      ensures HasPath(records, p)
    {
      var i :| 0 <= i < |files| && files[i].path == p;
      var r := Records(files)[i];
      assert r in multiset(records);
      var k :| 0 <= k < |records| && records[k] == r;
      assert records[k].path == p;
    }
  }

  /** A file's record is in the manifest of a tree exactly when the tree has a file of that size and checksum. */
  lemma ManifestMembership(m: Manifest, tree: Tree, r: FileRecord)
    requires ManifestOf(m, tree)
    ensures r in m <==> r.path in tree && |tree[r.path]| == r.size && Crc(tree[r.path]) == r.checksum
  {
    hide Sorted, Crc;
    if r.path in tree && |tree[r.path]| == r.size && Crc(tree[r.path]) == r.checksum {
      assert HasPath(m, r.path);
      var k :| 0 <= k < |m| && m[k].path == r.path;
      assert m[k] in m;
      assert m[k] == r;
    }
  }

  // ---------------------------------------------------------------------------
  // Scanning a tree, in whatever order.
  // ---------------------------------------------------------------------------

  ghost predicate Distinct(m: Manifest)
  {
    forall i, j :: 0 <= i < j < |m| ==> m[i] != m[j]
  }

  lemma {:induction false} CountOne(m: Manifest, r: FileRecord)
    requires Distinct(m)
    ensures multiset(m)[r] == if r in m then 1 else 0
  {
    if m != [] {
      CountOne(m[1..], r);
      assert m == [m[0]] + m[1..];
      assert multiset(m) == multiset{m[0]} + multiset(m[1..]);
      assert forall j :: 0 <= j < |m[1..]| ==> m[1..][j] == m[j + 1];
    }
  }

  /** Without repetitions, the same records are the same multiset of records. */
  lemma SameRecords(a: Manifest, b: Manifest)
    requires Distinct(a) && Distinct(b) && forall r :: r in a <==> r in b
    ensures multiset(a) == multiset(b) && |a| == |b| && RecordSizes(a) == RecordSizes(b)
  {
    forall r
      ensures multiset(a)[r] == multiset(b)[r]
    {
      CountOne(a, r);
      CountOne(b, r);
    }
    assert multiset(a) == multiset(b);
    assert |multiset(a)| == |a| && |multiset(b)| == |b|;
    SizesPermute(a, b);
  }

  /** The tree holds a file of the record's size and checksum. */
  ghost predicate Present(tree: Tree, r: FileRecord)
  {
    r.path in tree && |tree[r.path]| == r.size && Crc(tree[r.path]) == r.checksum
  }

  lemma ListedRecords(files: seq<DiskFile>, tree: Tree)
    requires Enumerates(files, tree)
    ensures Distinct(Records(files)) && forall r :: r in Records(files) <==> Present(tree, r)
  {
    hide Crc;
    var records := Records(files);
    forall r
      ensures r in records <==> Present(tree, r)
    {
      if r in records {
        var i :| 0 <= i < |files| && records[i] == r;
        assert files[i] in files;
      }
      if Present(tree, r) {
        var i :| 0 <= i < |files| && files[i].path == r.path;
        assert files[i] in files;
        assert records[i] == r;
      }
    }
    forall i, j | 0 <= i < j < |records|
      ensures records[i] != records[j]
    {
      assert files[i].path != files[j].path;
    }
  }

  /** A scan of the tree succeeds. */
  ghost predicate TreeScans(tree: Tree, unreadable: set<Path>, limits: ScanLimits)
  {
    exists files: seq<DiskFile> :: Enumerates(files, tree) && Scannable(files, unreadable, limits)
  }

  /** Whether it does depends on the tree, not on the order of the traversal. */
  lemma AnyOrderScans(files: seq<DiskFile>, tree: Tree, unreadable: set<Path>, limits: ScanLimits)
    requires Enumerates(files, tree)
    ensures Scannable(files, unreadable, limits) <==> TreeScans(tree, unreadable, limits)
  {
    hide Scannable, Enumerates;
    if TreeScans(tree, unreadable, limits) {
      var other: seq<DiskFile> :| Enumerates(other, tree) && Scannable(other, unreadable, limits);
      OtherOrderScans(files, other, tree, unreadable, limits);
    }
  }

  lemma OtherOrderScans(files: seq<DiskFile>, other: seq<DiskFile>, tree: Tree, unreadable: set<Path>,
                        limits: ScanLimits)
    requires Enumerates(files, tree) && Enumerates(other, tree) && Scannable(other, unreadable, limits)
    ensures Scannable(files, unreadable, limits)
  {
    hide Crc, Safe, Distinct, Present, RecordSizes;
    ListedRecords(files, tree);
    ListedRecords(other, tree);
    SameRecords(Records(files), Records(other));
    hide Records;
    forall f | f in files
      ensures Safe(f.path) && |f.content| <= limits.maxFileSize && f.path !in unreadable
    {
      var i :| 0 <= i < |other| && other[i].path == f.path;
      assert other[i] in other;
    }
  }

  lemma ListsOneMore(tree: Tree, p: Path, less: Tree, rest: seq<DiskFile>)
    requires p in tree && |tree[p]| < U64_LIMIT && less == tree - {p} && Enumerates(rest, less)
    ensures Enumerates([DiskFile(p, tree[p])] + rest, tree)
  {
    var files := [DiskFile(p, tree[p])] + rest;
    forall f | f in rest
      ensures f.path in tree && tree[f.path] == f.content && |f.content| < U64_LIMIT && f.path != p
    {
      assert f.path in less;
    }
    forall i, j | 0 <= i < j < |files|
      ensures files[i].path != files[j].path
    {
      assert files[j] == rest[j - 1] && rest[j - 1] in rest;
      assert i != 0 ==> files[i] == rest[i - 1];
    }
    forall q: Path | q in tree
      ensures exists i :: 0 <= i < |files| && files[i].path == q
    {
      MetSomewhere(tree, p, less, rest, q);
    }
  }

  lemma MetSomewhere(tree: Tree, p: Path, less: Tree, rest: seq<DiskFile>, q: Path)
    requires p in tree && less == tree - {p} && q in tree
    requires q in less ==> exists i :: 0 <= i < |rest| && rest[i].path == q
    ensures var files := [DiskFile(p, tree[p])] + rest; exists i :: 0 <= i < |files| && files[i].path == q
  {
    var files := [DiskFile(p, tree[p])] + rest;
    if q == p {
      assert files[0].path == q;
    } else {
      assert q in less;
      var i :| 0 <= i < |rest| && rest[i].path == q;
      assert files[i + 1].path == q;
    }
  }

  lemma {:induction false} SomeOrder(tree: Tree) returns (files: seq<DiskFile>)
    requires forall p :: p in tree ==> |tree[p]| < U64_LIMIT
    ensures Enumerates(files, tree)
    decreases |tree|
  {
    if tree == map[] {
      files := [];
    } else {
      var p: Path :| p in tree;
      var less: Tree := tree - {p};
      assert tree.Keys == less.Keys + {p};
      var rest := SomeOrder(less);
      ListsOneMore(tree, p, less, rest);
      files := [DiskFile(p, tree[p])] + rest;
    }
  }

  // ---------------------------------------------------------------------------
  // What a tree lacks.
  // ---------------------------------------------------------------------------

  /** The paths of the source records that the tree does not hold. */
  ghost function Lacking(source: Manifest, tree: Tree): seq<Path>
  {
    if source == [] then []
    else (if Present(tree, source[0]) then [] else [source[0].path]) + Lacking(source[1..], tree)
  }

  lemma {:induction false} NeededIsLacking(source: Manifest, destination: Manifest, tree: Tree)
    requires ManifestOf(destination, tree)
    ensures Needed(source, destination) == Lacking(source, tree)
    decreases |source|
  {
    hide Crc, ManifestOf;
    if source != [] {
      ManifestMembership(destination, tree, source[0]);
      NeededIsLacking(source[1..], destination, tree);
    }
  }
}
