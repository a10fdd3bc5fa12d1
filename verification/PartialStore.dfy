/** The server's persistent state, and the budget for unfinished uploads (src/common/file_transfer.cpp). */
module PartialStore {
  import opened Words
  import opened Wire
  import opened Paths
  import opened TransferCodec

  /**
   * An unfinished upload: the part file's content, and how many leading bytes of it have been
   * synchronised to disk together with its directory entry.
   */
  datatype Part = Part(content: Bytes, synced: nat)

  /**
   * A part file is named by a digest of the encoded metadata, taken to be collision-free, so the
   * metadata itself is the key.
   */
  type Parts = map<UploadMetadata, Part>

  datatype Disk = Disk(parts: Parts, files: map<Path, Bytes>)

  datatype TransferLimits = TransferLimits(
    maxFileSize: u64,
    chunkSize: nat,
    maxPartialFiles: nat,
    maxPartialBytes: u64)

  const DEFAULT_TRANSFER: TransferLimits := TransferLimits(0x4000_0000, 0x1_0000, 64, 0x1_0000_0000)

  predicate ValidLimits(l: TransferLimits)
  {
    0 < l.chunkSize <= DEFAULT_MAX_PAYLOAD - CHUNK_OFFSET
  }

  // ---------------------------------------------------------------------------
  // Files and directories. The directories are those the committed files are in.
  // ---------------------------------------------------------------------------

  /** A committed file stands where the path needs a directory. */
  predicate Blocked(files: map<Path, Bytes>, path: Path)
  {
    exists p :: p in files && Above(p, path)
  }

  /** The path names a directory that holds committed files. */
  predicate Occupied(files: map<Path, Bytes>, path: Path)
  {
    exists p :: p in files && Above(path, p)
  }

  predicate InTheWay(files: map<Path, Bytes>, path: Path)
  {
    Blocked(files, path) || Occupied(files, path)
  }

  /** No file is where another one needs a directory, as in every file system. */
  predicate ClashFree(files: map<Path, Bytes>)
  {
    forall p, q :: p in files && q in files ==> !Above(p, q)
  }

  /** Putting a file where nothing is in the way keeps it so. */
  lemma PutKeepsClashFree(files: map<Path, Bytes>, path: Path, content: Bytes)
    requires ClashFree(files) && !InTheWay(files, path)
    ensures ClashFree(files[path := content])
  {
  }

  /** The loop of `prepare_destination` over the parents: is one of them a file? */
  method ParentIsFile(files: map<Path, Bytes>, path: Path) returns (blocked: bool)
    ensures blocked <==> Blocked(files, path)
  {
    for i := 0 to |path|
      invariant forall j :: 0 <= j < i && path[j] == SLASH ==> path[..j] !in files
    {
      if path[i] == SLASH && path[..i] in files {
        assert Above(path[..i], path);
        return true;
      }
    }
    return false;
  }

  // ---------------------------------------------------------------------------
  // Totals over the store.
  // ---------------------------------------------------------------------------

  ghost function TotalBytes(parts: Parts): (n: nat)
    decreases |parts|
  {
    if parts == map[] then 0 else
      var k :| k in parts;
      |parts[k].content| + TotalBytes(parts - {k})
  }

  /** The total does not depend on the order in which the parts are counted. */
  lemma {:induction false} TotalWithout(parts: Parts, k: UploadMetadata)
    requires k in parts
    ensures TotalBytes(parts) == |parts[k].content| + TotalBytes(parts - {k})
    ensures |parts| == 1 + |parts - {k}|
    decreases |parts|
  {
    assert parts != map[];
    assert parts.Keys == (parts - {k}).Keys + {k};
    var j :| j in parts && TotalBytes(parts) == |parts[j].content| + TotalBytes(parts - {j});
    if j != k {
      TotalWithout(parts - {j}, k);
      TotalWithout(parts - {k}, j);
      assert parts - {j} - {k} == parts - {k} - {j};
    }
  }

  lemma TotalUpdate(parts: Parts, k: UploadMetadata, p: Part)
    ensures var rest := parts - {k};
      TotalBytes(parts[k := p]) == |p.content| + TotalBytes(rest) && |parts[k := p]| == 1 + |rest|
  {
    TotalWithout(parts[k := p], k);
    assert parts[k := p] - {k} == parts - {k};
  }

  /** The limits on the store as a whole. */
  ghost predicate InBudget(parts: Parts, l: TransferLimits)
  {
    |parts| <= l.maxPartialFiles && TotalBytes(parts) <= l.maxPartialBytes
  }

  /** Room for this upload at its full declared size, beside what the others actually hold. */
  ghost predicate Admits(parts: Parts, m: UploadMetadata, l: TransferLimits)
  {
    var others := parts - {m};
    1 + |others| <= l.maxPartialFiles && m.fileSize + TotalBytes(others) <= l.maxPartialBytes
  }

  /** An admitted upload can grow to its declared size without the store leaving its budget. */
  lemma AdmittedStaysInBudget(parts: Parts, m: UploadMetadata, p: Part, l: TransferLimits)
    requires Admits(parts, m, l) && |p.content| <= m.fileSize
    ensures InBudget(parts[m := p], l) && Admits(parts[m := p], m, l)
  {
    TotalUpdate(parts, m, p);
    assert parts[m := p] - {m} == parts - {m};
  }

  lemma AdmittedWithout(parts: Parts, m: UploadMetadata, l: TransferLimits)
    requires Admits(parts, m, l)
    ensures InBudget(parts - {m}, l)
  {
  }

  // ---------------------------------------------------------------------------
  // The accounting loop.
  // ---------------------------------------------------------------------------

  /**
   * What the directory iterator finds under a part's name: a regular file, anything else
   * (or a file whose status cannot be read), or a failure of the iteration itself.
   */
  datatype DirEntry =
    | PartFile(key: UploadMetadata, size: nat)
    | NotRegular(key: UploadMetadata)
    | Unreadable

  /** Nothing but this upload's own name may be other than a regular file. */
  predicate Acceptable(e: DirEntry, own: UploadMetadata)
  {
    e.PartFile? || (e.NotRegular? && e.key == own)
  }

  function OthersBytes(entries: seq<DirEntry>, own: UploadMetadata): nat
  {
    if entries == [] then 0 else
      (if entries[0].PartFile? && entries[0].key != own then entries[0].size else 0) + OthersBytes(entries[1..], own)
  }

  function OthersCount(entries: seq<DirEntry>, own: UploadMetadata): nat
  {
    if entries == [] then 0 else
      (if entries[0].PartFile? && entries[0].key != own then 1 else 0) + OthersCount(entries[1..], own)
  }

  lemma {:induction false} OthersSplit(a: seq<DirEntry>, b: seq<DirEntry>, own: UploadMetadata)
    ensures OthersBytes(a + b, own) == OthersBytes(a, own) + OthersBytes(b, own)
    ensures OthersCount(a + b, own) == OthersCount(a, own) + OthersCount(b, own)
  {
    if a == [] {
      assert a + b == b;
    } else {
      assert (a + b)[1..] == a[1..] + b;
      OthersSplit(a[1..], b, own);
    }
  }

  lemma OthersNext(entries: seq<DirEntry>, i: nat, own: UploadMetadata)
    requires i < |entries|
    ensures OthersBytes(entries[..i + 1], own) == OthersBytes(entries[..i], own) + OthersBytes([entries[i]], own)
    ensures OthersCount(entries[..i + 1], own) == OthersCount(entries[..i], own) + OthersCount([entries[i]], own)
    ensures OthersBytes(entries[..i + 1], own) <= OthersBytes(entries, own)
    ensures OthersCount(entries[..i + 1], own) <= OthersCount(entries, own)
    ensures var e := entries[i]; e.PartFile? && e.key != own ==>
      OthersBytes([e], own) == e.size && OthersCount([e], own) == 1
    ensures var e := entries[i]; !(e.PartFile? && e.key != own) ==>
      OthersBytes([e], own) == 0 && OthersCount([e], own) == 0
  {
    assert entries[..i + 1] == entries[..i] + [entries[i]];
    OthersSplit(entries[..i], [entries[i]], own);
    assert entries == entries[..i + 1] + entries[i + 1..];
    OthersSplit(entries[..i + 1], entries[i + 1..], own);
  }

  /**
   * `within_partial_budget`: the early-exit loop never underflows its `max - bytes` and decides
   * exactly the plain sum-and-count test, whatever the directory order.
   */
  method WithinPartialBudget(entries: seq<DirEntry>, own: UploadMetadata, l: TransferLimits) returns (ok: bool)
    ensures ok <==>
      && (forall e :: e in entries ==> Acceptable(e, own))
      && own.fileSize + OthersBytes(entries, own) <= l.maxPartialBytes
      && 1 + OthersCount(entries, own) <= l.maxPartialFiles
  {
    hide OthersBytes, OthersCount;
    NoOthers(own);
    if own.fileSize > l.maxPartialBytes {
      return false;
    }
    var bytes: u64 := own.fileSize;
    var count: nat := 1;
    for i := 0 to |entries|
      invariant forall e :: e in entries[..i] ==> Acceptable(e, own)
      invariant bytes == own.fileSize + OthersBytes(entries[..i], own) <= l.maxPartialBytes
      invariant count == 1 + OthersCount(entries[..i], own)
      invariant count == 1 || count <= l.maxPartialFiles
    {
      OthersNext(entries, i, own);
      assert entries[..i + 1] == entries[..i] + [entries[i]];
      var e := entries[i];
      assert e in entries;
      if e.Unreadable? {
        return false;
      }
      if e.key != own {
        if e.NotRegular? {
          return false;
        }
        var room: u64 := l.maxPartialBytes - bytes;
        if e.size > room {
          return false;
        }
        bytes := bytes + e.size;
        count := count + 1;
        if count > l.maxPartialFiles {
          return false;
        }
      }
    }
    assert entries[..|entries|] == entries;
    return count <= l.maxPartialFiles;
  }

  lemma NoOthers(own: UploadMetadata)
    ensures OthersBytes([], own) == 0 && OthersCount([], own) == 0
  {
  }

  /** The entries list the store: each part file once, with its size. */
  ghost predicate Lists(entries: seq<DirEntry>, parts: Parts)
  {
    && (forall e :: e in entries ==> e.PartFile? && e.key in parts && e.size == |parts[e.key].content|)
    && (forall i, j :: 0 <= i < j < |entries| && entries[i].PartFile? && entries[j].PartFile? ==>
          entries[i].key != entries[j].key)
    && (forall k :: k in parts ==> exists i :: 0 <= i < |entries| && entries[i].PartFile? && entries[i].key == k)
  }

  lemma {:induction false} ListedTotals(entries: seq<DirEntry>, parts: Parts, own: UploadMetadata)
    requires Lists(entries, parts)
    ensures OthersBytes(entries, own) == TotalBytes(parts - {own})
    ensures OthersCount(entries, own) == |parts - {own}|
    decreases |entries|
  {
    hide TotalBytes, Lists;
    if entries == [] {
      ListsNothing(parts);
      assert parts - {own} == map[];
    } else {
      ListsRest(entries, parts);
      var k, rest := entries[0].key, entries[1..];
      ListedTotals(rest, parts - {k}, own);
      OthersWithout(parts, k, own);
    }
  }

  lemma OthersWithout(parts: Parts, k: UploadMetadata, own: UploadMetadata)
    requires k in parts
    ensures k == own ==> parts - {k} - {own} == parts - {own}
    ensures k != own ==>
      && TotalBytes(parts - {own}) == |parts[k].content| + TotalBytes(parts - {k} - {own})
      && |parts - {own}| == 1 + |parts - {k} - {own}|
  {
    hide TotalBytes;
    if k == own {
      assert parts - {k} - {own} == parts - {own};
    } else {
      TotalWithout(parts - {own}, k);
      assert parts - {k} - {own} == parts - {own} - {k};
    }
  }

  lemma ListsNothing(parts: Parts)
    requires Lists([], parts)
    ensures parts == map[] && TotalBytes(map[]) == 0
  {
  }

  lemma ListsRest(entries: seq<DirEntry>, parts: Parts)
    requires Lists(entries, parts) && entries != []
    ensures entries[0].PartFile? && entries[0].key in parts && entries[0].size == |parts[entries[0].key].content|
    ensures Lists(entries[1..], parts - {entries[0].key})
  {
    var rest := entries[1..];
    assert entries[0] in entries;
    var k := entries[0].key;
    forall i | 0 <= i < |rest|
      ensures rest[i].PartFile? && rest[i].key != k && rest[i].key in parts
        && rest[i].size == |parts[rest[i].key].content|
    {
      assert rest[i] == entries[i + 1] && entries[i + 1] in entries;
    }
    forall q | q in parts - {k}
      ensures exists i :: 0 <= i < |rest| && rest[i].PartFile? && rest[i].key == q
    {
      var i :| 0 <= i < |entries| && entries[i].PartFile? && entries[i].key == q;
      assert rest[i - 1] == entries[i];
    }
  }

  /** The part files among what the iterator finds. */
  function Regular(entries: seq<DirEntry>): seq<DirEntry>
  {
    if entries == [] then []
    else (if entries[0].PartFile? then [entries[0]] else []) + Regular(entries[1..])
  }

  /** The directory holds nothing but part files, and all of it can be read. */
  predicate Tidy(entries: seq<DirEntry>)
  {
    forall e :: e in entries ==> e.PartFile?
  }

  lemma {:induction false} RegularTotals(entries: seq<DirEntry>, own: UploadMetadata)
    ensures OthersBytes(Regular(entries), own) == OthersBytes(entries, own)
    ensures OthersCount(Regular(entries), own) == OthersCount(entries, own)
  {
    if entries != [] {
      RegularTotals(entries[1..], own);
      var tail := Regular(entries[1..]);
      assert ([entries[0]] + tail)[1..] == tail;
      assert [] + tail == tail;
    }
  }

  lemma {:induction false} TidyRegular(entries: seq<DirEntry>)
    requires Tidy(entries)
    ensures Regular(entries) == entries
  {
    if entries != [] {
      TidyRegular(entries[1..]);
      assert entries[0] in entries;
    }
  }

  /** A directory that cannot be read to its end. */
  lemma {:induction false} BrokenOff(entries: seq<DirEntry>)
    requires Tidy(entries)
    ensures Regular(entries + [Unreadable]) == entries && !Tidy(entries + [Unreadable])
  {
    var all := entries + [Unreadable];
    assert Unreadable in all;
    if entries != [] {
      BrokenOff(entries[1..]);
      assert all[1..] == entries[1..] + [Unreadable];
      assert entries[0] in entries;
    }
  }

  /**
   * On a listing of the store, in any order and with anything else among the parts, the loop
   * decides admission and that nothing but the upload's own name is other than a regular file.
   */
  lemma BudgetDecidesAdmission(entries: seq<DirEntry>, parts: Parts, own: UploadMetadata, l: TransferLimits)
    requires Lists(Regular(entries), parts)
    ensures Admits(parts, own, l) && (forall e :: e in entries ==> Acceptable(e, own)) <==>
      && (forall e :: e in entries ==> Acceptable(e, own))
      && own.fileSize + OthersBytes(entries, own) <= l.maxPartialBytes
      && 1 + OthersCount(entries, own) <= l.maxPartialFiles
  {
    hide OthersBytes, OthersCount, TotalBytes;
    ListedTotals(Regular(entries), parts, own);
    RegularTotals(entries, own);
  }

  /** An empty store admits an empty file. */
  lemma NothingStored(m: UploadMetadata, limits: TransferLimits)
    requires m.fileSize == 0 && 1 <= limits.maxPartialFiles
    ensures Admits(map[], m, limits)
  {
    var none: Parts := map[];
    assert none - {m} == none;
  }
}
