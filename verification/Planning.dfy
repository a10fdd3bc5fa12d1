/** The two-index merge that decides what to upload (src/common/sync_codec.cpp, build_sync_plan). */
module Planning {
  import opened Words
  import opened Paths
  import opened SyncCodec

  /** Strictly increasing paths, so a path occurs at most once. */
  ghost predicate Sorted(files: Manifest)
  {
    forall i, j :: 0 <= i < j < |files| ==> Less(files[i].path, files[j].path)
  }

  predicate HasPath(files: Manifest, path: Path)
  {
    exists i :: 0 <= i < |files| && files[i].path == path
  }

  // ---------------------------------------------------------------------------
  // What a plan should contain, said without any traversal order.
  // ---------------------------------------------------------------------------

  /** The paths of the source records that the destination does not hold identically, in source order. */
  function Needed(source: Manifest, destination: Manifest): (paths: seq<Path>)
  {
    if source == [] then []
    else if source[0] in destination then Needed(source[1..], destination)
    else [source[0].path] + Needed(source[1..], destination)
  }

  /** How many destination records have a path the source lacks. */
  function ServerOnly(source: Manifest, destination: Manifest): (n: nat)
    decreases |destination|
  {
    if destination == [] then 0
    else (if HasPath(source, destination[0].path) then 0 else 1) + ServerOnly(source, destination[1..])
  }

  /** How many source records replace a different destination record of the same path. */
  function Changed(source: Manifest, destination: Manifest): (n: nat)
  {
    if source == [] then 0
    else (if source[0] !in destination && HasPath(destination, source[0].path) then 1 else 0)
         + Changed(source[1..], destination)
  }

  // ---------------------------------------------------------------------------
  // The merge.
  // ---------------------------------------------------------------------------

  datatype Merged = Merged(uploads: seq<Path>, same: nat, changed: nat, serverOnly: nat)

  function Merge(source: Manifest, destination: Manifest): (m: Merged)
    decreases |source| + |destination|
  {
    if source == [] then Merged([], 0, 0, |destination|)
    else if destination == [] then
      var m := Merge(source[1..], []);
      m.(uploads := [source[0].path] + m.uploads)
    else if Less(source[0].path, destination[0].path) then
      var m := Merge(source[1..], destination);
      m.(uploads := [source[0].path] + m.uploads)
    else if Less(destination[0].path, source[0].path) then
      var m := Merge(source, destination[1..]);
      m.(serverOnly := m.serverOnly + 1)
    else
      var m := Merge(source[1..], destination[1..]);
      if source[0].size == destination[0].size && source[0].checksum == destination[0].checksum then
        m.(same := m.same + 1)
      else m.(uploads := [source[0].path] + m.uploads, changed := m.changed + 1)
  }

  /** `total` is what has been accumulated so far followed by what `rest` still contributes. */
  ghost predicate Continues(total: Merged, uploads: seq<Path>, same: nat, serverOnly: nat, rest: Merged)
  {
    && total.uploads == uploads + rest.uploads
    && total.same == same + rest.same
    && total.serverOnly == serverOnly + rest.serverOnly
  }

  /** `build_sync_plan`; its counters are 32-bit and wrap. */
  method BuildSyncPlan(source: Manifest, destination: Manifest) returns (plan: Plan)
    ensures var m := Merge(source, destination);
      && plan.uploadPaths == m.uploads
      && plan.unchangedCount == m.same % U32_LIMIT
      && plan.serverOnlyCount == m.serverOnly % U32_LIMIT
  {
    hide Merge;
    var uploads: seq<Path> := [];
    var unchangedCount, serverOnlyCount := 0, 0;
    var i, j := 0, 0;
    ghost var total, same, serverOnly := Merge(source, destination), 0, 0;
    assert source[0..] == source && destination[0..] == destination;
    assert uploads + total.uploads == total.uploads;
    while i < |source| && j < |destination|
      invariant 0 <= i <= |source| && 0 <= j <= |destination|
      invariant unchangedCount == same % U32_LIMIT && serverOnlyCount == serverOnly % U32_LIMIT
      invariant Continues(total, uploads, same, serverOnly, Merge(source[i..], destination[j..]))
      decreases |source| - i + |destination| - j
    {
      MergeRound(total, uploads, same, serverOnly, source, i, destination, j);
      if Less(source[i].path, destination[j].path) {
        uploads := uploads + [source[i].path];
        i := i + 1;
      } else if Less(destination[j].path, source[i].path) {
        WrapAdd(serverOnly, 1);
        serverOnlyCount, serverOnly := (serverOnlyCount + 1) % U32_LIMIT, serverOnly + 1;
        j := j + 1;
      } else {
        if source[i].size == destination[j].size && source[i].checksum == destination[j].checksum {
          WrapAdd(same, 1);
          unchangedCount, same := (unchangedCount + 1) % U32_LIMIT, same + 1;
        } else {
          uploads := uploads + [source[i].path];
        }
        i, j := i + 1, j + 1;
      }
    }
    while i < |source|
      invariant 0 <= i <= |source| && 0 <= j <= |destination|
      invariant i < |source| ==> j == |destination|
      invariant Continues(total, uploads, same, serverOnly, Merge(source[i..], destination[j..]))
    {
      MergeDrain(total, uploads, same, serverOnly, source, i, destination);
      uploads := uploads + [source[i].path];
      i := i + 1;
    }
    MergeEnd(source[i..], destination[j..]);
    assert uploads + [] == uploads;
    WrapAdd(serverOnly, |destination| - j);
    serverOnlyCount := (serverOnlyCount + (|destination| - j) % U32_LIMIT) % U32_LIMIT;
    plan := Plan(uploads, unchangedCount, serverOnlyCount);
  }

  lemma WrapAdd(a: nat, b: nat)
    ensures (a % U32_LIMIT + b) % U32_LIMIT == (a + b) % U32_LIMIT
    ensures (a % U32_LIMIT + b % U32_LIMIT) % U32_LIMIT == (a + b) % U32_LIMIT
  {
  }

  /** One round of the two-index loop. */
  lemma MergeRound(total: Merged, uploads: seq<Path>, same: nat, serverOnly: nat,
                   source: Manifest, i: nat, destination: Manifest, j: nat)
    requires i < |source| && j < |destination|
    requires Continues(total, uploads, same, serverOnly, Merge(source[i..], destination[j..]))
    ensures var s, d := source[i], destination[j];
      if Less(s.path, d.path) then
        Continues(total, uploads + [s.path], same, serverOnly, Merge(source[i + 1..], destination[j..]))
      else if Less(d.path, s.path) then
        Continues(total, uploads, same, serverOnly + 1, Merge(source[i..], destination[j + 1..]))
      else if s.size == d.size && s.checksum == d.checksum then
        Continues(total, uploads, same + 1, serverOnly, Merge(source[i + 1..], destination[j + 1..]))
      else
        Continues(total, uploads + [s.path], same, serverOnly, Merge(source[i + 1..], destination[j + 1..]))
  {
    hide Less;
    assert source[i..][1..] == source[i + 1..] && destination[j..][1..] == destination[j + 1..];
    assert source[i..][0] == source[i] && destination[j..][0] == destination[j];
  }

  lemma MergeDrain(total: Merged, uploads: seq<Path>, same: nat, serverOnly: nat,
                   source: Manifest, i: nat, destination: Manifest)
    requires i < |source|
    requires Continues(total, uploads, same, serverOnly, Merge(source[i..], destination[|destination|..]))
    ensures Continues(total, uploads + [source[i].path], same, serverOnly,
                      Merge(source[i + 1..], destination[|destination|..]))
  {
    assert source[i..][1..] == source[i + 1..] && destination[|destination|..] == [];
  }

  lemma MergeEnd(source: Manifest, destination: Manifest)
    requires source == []
    ensures Merge(source, destination) == Merged([], 0, 0, |destination|)
  {
  }

  // ---------------------------------------------------------------------------
  // The merge means what the plan should contain.
  // ---------------------------------------------------------------------------

  lemma SortedTail(files: Manifest)
    requires Sorted(files) && files != []
    ensures Sorted(files[1..])
    ensures forall r :: r in files[1..] ==> Less(files[0].path, r.path)
  {
  }

  /** A path below the first of a sorted manifest does not occur in it. */
  lemma BelowFirst(files: Manifest, path: Path)
    requires Sorted(files) && (files != [] ==> Less(path, files[0].path))
    ensures !HasPath(files, path)
  {
    forall i | 0 <= i < |files|
      ensures files[i].path != path
    {
      if i != 0 {
        LessTransitive(path, files[0].path, files[i].path);
      }
      LessAsymmetric(path, files[i].path);
    }
  }

  /** A destination record whose path the source lacks changes nothing for the source. */
  lemma {:induction false} SkipDestination(source: Manifest, d: FileRecord, rest: Manifest)
    requires !HasPath(source, d.path)
    ensures Needed(source, [d] + rest) == Needed(source, rest)
    ensures Changed(source, [d] + rest) == Changed(source, rest)
  {
    if source != [] {
      forall i | 0 <= i < |source[1..]|
        ensures source[1..][i].path != d.path
      {
        assert source[1..][i] == source[i + 1];
      }
      SkipDestination(source[1..], d, rest);
      assert source[0].path != d.path;
      PathOfCons(d, rest, source[0].path);
    }
  }

  lemma PathOfCons(d: FileRecord, rest: Manifest, path: Path)
    ensures HasPath([d] + rest, path) <==> d.path == path || HasPath(rest, path)
  {
    var all := [d] + rest;
    assert all[0] == d;
    forall i | 0 <= i < |rest|
      ensures all[i + 1] == rest[i]
    {
    }
    if HasPath(all, path) && d.path != path {
      var i :| 0 <= i < |all| && all[i].path == path;
      assert rest[i - 1].path == path;
    }
  }

  /** A source record whose path the destination lacks does not affect the server-only count. */
  lemma {:induction false} SkipSource(s: FileRecord, rest: Manifest, destination: Manifest)
    requires !HasPath(destination, s.path)
    ensures ServerOnly([s] + rest, destination) == ServerOnly(rest, destination)
    decreases |destination|
  {
    if destination != [] {
      forall i | 0 <= i < |destination[1..]|
        ensures destination[1..][i].path != s.path
      {
        assert destination[1..][i] == destination[i + 1];
      }
      SkipSource(s, rest, destination[1..]);
      assert destination[0].path != s.path;
      PathOfCons(s, rest, destination[0].path);
    }
  }

  lemma {:induction false} EmptyDestination(source: Manifest)
    ensures Merge(source, []) == Merged(Needed(source, []), 0, Changed(source, []), 0)
    ensures Changed(source, []) == 0 && |Needed(source, [])| == |source|
  {
    if source != [] {
      EmptyDestination(source[1..]);
    }
  }

  lemma {:induction false} EmptySource(destination: Manifest)
    ensures ServerOnly([], destination) == |destination|
  {
    if destination != [] {
      EmptySource(destination[1..]);
    }
  }

  /**
   * On sorted manifests the merge yields exactly the source paths without an identical record in
   * the destination, and its counters partition both manifests.
   */
  lemma {:induction false} MergeMeaning(source: Manifest, destination: Manifest)
    requires Sorted(source) && Sorted(destination)
    ensures var m := Merge(source, destination);
      && m.uploads == Needed(source, destination)
      && m.changed == Changed(source, destination)
      && m.serverOnly == ServerOnly(source, destination)
      && |m.uploads| + m.same == |source|
      && m.same + m.changed + m.serverOnly == |destination|
    decreases |source| + |destination|
  {
    if source == [] {
      EmptySource(destination);
    } else if destination == [] {
      EmptyDestination(source);
    } else {
      var s, d := source[0], destination[0];
      SortedTail(source);
      SortedTail(destination);
      assert source == [s] + source[1..] && destination == [d] + destination[1..];
      if Less(s.path, d.path) {
        BelowFirst(destination, s.path);
        SkipSource(s, source[1..], destination);
        MergeMeaning(source[1..], destination);
      } else if Less(d.path, s.path) {
        BelowFirst(source, d.path);
        SkipDestination(source, d, destination[1..]);
        MergeMeaning(source, destination[1..]);
      } else {
        LessTotal(s.path, d.path);
        BelowTail(source);
        BelowTail(destination);
        SkipDestination(source[1..], d, destination[1..]);
        SkipSource(s, source[1..], destination[1..]);
        MergeMeaning(source[1..], destination[1..]);
      }
    }
  }

  lemma BelowTail(files: Manifest)
    requires Sorted(files) && files != []
    ensures !HasPath(files[1..], files[0].path)
  {
    SortedTail(files);
    BelowFirst(files[1..], files[0].path);
  }

  // ---------------------------------------------------------------------------
  // Consequences.
  // ---------------------------------------------------------------------------

  /** Exactly the paths of source records without an identical destination record are planned. */
  lemma {:induction false} NeededExactly(source: Manifest, destination: Manifest, path: Path)
    ensures path in Needed(source, destination) <==>
      exists i :: 0 <= i < |source| && source[i].path == path && source[i] !in destination
  {
    if source != [] {
      NeededExactly(source[1..], destination, path);
      forall i | 0 <= i < |source[1..]|
        ensures source[1..][i] == source[i + 1]
      {
      }
      if exists i :: 0 <= i < |source| && source[i].path == path && source[i] !in destination {
        var i :| 0 <= i < |source| && source[i].path == path && source[i] !in destination;
        assert i != 0 ==> source[1..][i - 1] == source[i];
      }
    }
  }

  /** Nothing is planned exactly when the destination holds every source record. */
  lemma {:induction false} NothingNeeded(source: Manifest, destination: Manifest)
    ensures Needed(source, destination) == [] <==> forall r :: r in source ==> r in destination
  {
    if source != [] {
      NothingNeeded(source[1..], destination);
      assert forall r :: r in source <==> r == source[0] || r in source[1..];
    }
  }

  // ---------------------------------------------------------------------------
  // Sizes on the wire.
  // ---------------------------------------------------------------------------

  /** Encoded bytes of the records: two for the path length, eight, four, and the path itself. */
  function RecordSizes(files: Manifest): (n: nat)
  {
    if files == [] then 0 else 14 + |files[0].path| + RecordSizes(files[1..])
  }

  function PathSizes(paths: seq<Path>): (n: nat)
  {
    if paths == [] then 0 else 2 + |paths[0]| + PathSizes(paths[1..])
  }

  lemma {:induction false} EntrySizes(files: Manifest)
    ensures |EntryBytes(EntriesOf(files))| == RecordSizes(files)
  {
    if files != [] {
      assert EntriesOf(files)[1..] == EntriesOf(files[1..]);
      EntrySizes(files[1..]);
    }
  }

  lemma {:induction false} BareSizes(paths: seq<Path>)
    ensures |EntryBytes(BareEntries(paths))| == PathSizes(paths)
  {
    if paths != [] {
      assert BareEntries(paths)[1..] == BareEntries(paths[1..]);
      BareSizes(paths[1..]);
    }
  }

  lemma FirstPathOnce(files: Manifest)
    requires files != [] && Sorted(files)
    ensures Sorted(files[1..])
    ensures forall r :: r in files <==> r == files[0] || r in files[1..]
    ensures forall r :: r in files[1..] ==> r.path != files[0].path
  {
    forall r | r in files[1..]
      ensures r.path != files[0].path
    {
      var j :| 0 <= j < |files[1..]| && files[1..][j] == r;
      assert Less(files[0].path, files[j + 1].path);
      LessAsymmetric(files[0].path, r.path);
    }
  }

  /** Once a destination has also the first `n` files of a plan, the rest of the plan is what it needs. */
  lemma {:induction false} RestNeeded(source: Manifest, before: Manifest, after: Manifest, n: nat)
    requires Sorted(source) && n <= |Needed(source, before)|
    requires forall r :: r in source ==> (r in after <==> r in before || r.path in Needed(source, before)[..n])
    ensures Needed(source, after) == Needed(source, before)[n..]
    decreases |source|
  {
    hide Less, Sorted;
    if source != [] {
      var r, rest := source[0], source[1..];
      var paths, tail := Needed(source, before), Needed(rest, before);
      FirstPathOnce(source);
      if r in before {
        assert paths == tail;
        RestNeeded(rest, before, after, n);
        NeededExactly(rest, before, r.path);
      } else if n == 0 {
        assert paths == [r.path] + tail;
        RestNeeded(rest, before, after, 0);
      } else {
        assert paths == [r.path] + tail && paths[..n] == [r.path] + tail[..n - 1];
        RestNeeded(rest, before, after, n - 1);
      }
    }
  }

  lemma {:induction false} NeededIsSmaller(source: Manifest, destination: Manifest)
    ensures PathSizes(Needed(source, destination)) + 12 * |source| <= RecordSizes(source)
    ensures |Needed(source, destination)| <= |source|
  {
    if source != [] {
      NeededIsSmaller(source[1..], destination);
      var needed := Needed(source, destination);
      assert source[0] !in destination ==> needed[1..] == Needed(source[1..], destination);
    }
  }

  /** A valid manifest is sorted with safe paths, and sorted safe paths make a valid manifest. */
  lemma {:induction false} OrderedIsSorted(previous: Path, files: Manifest)
    ensures Ordered(previous, EntriesOf(files), RECORD_FIXED) <==>
      && Sorted(files)
      && (files != [] ==> StrictlyAfter(previous, files[0].path))
      && forall r :: r in files ==> Safe(r.path)
    decreases |files|
  {
    hide Safe, Less;
    if files != [] {
      var rest := files[1..];
      assert EntriesOf(files)[1..] == EntriesOf(rest);
      OrderedIsSorted(files[0].path, rest);
      if Safe(files[0].path) {
        SafeLength(files[0].path);
        if Sorted(rest) && (rest != [] ==> Less(files[0].path, rest[0].path)) {
          SortedCons(files);
        }
        if Sorted(files) {
          SortedTail(files);
          assert rest != [] ==> rest[0] in files[1..];
        }
      }
      assert forall r :: r in files <==> r == files[0] || r in rest;
    }
  }

  lemma SortedCons(files: Manifest)
    requires files != [] && Sorted(files[1..]) && (files[1..] != [] ==> Less(files[0].path, files[1].path))
    ensures Sorted(files)
  {
    forall i, j | 0 <= i < j < |files|
      ensures Less(files[i].path, files[j].path)
    {
      if i == 0 {
        if j != 1 {
          assert files[1..][0] == files[1] && files[1..][j - 1] == files[j];
          LessTransitive(files[0].path, files[1].path, files[j].path);
        }
      } else {
        assert files[1..][i - 1] == files[i] && files[1..][j - 1] == files[j];
      }
    }
  }

  lemma ValidManifestIsSorted(files: Manifest)
    ensures ValidManifest(files) <==> |files| < U32_LIMIT && Sorted(files) && forall r :: r in files ==> Safe(r.path)
  {
    OrderedIsSorted([], files);
  }

  /** The planned paths of a valid manifest are themselves in strict order and safe. */
  lemma {:induction false} NeededOrdered(previous: Path, source: Manifest, destination: Manifest)
    requires Ordered(previous, EntriesOf(source), RECORD_FIXED)
    ensures Ordered(previous, BareEntries(Needed(source, destination)), 0)
    decreases |source|
  {
    hide Safe, Less;
    if source != [] {
      assert EntriesOf(source)[1..] == EntriesOf(source[1..]);
      var tail := Needed(source[1..], destination);
      NeededOrdered(source[0].path, source[1..], destination);
      SafeLength(source[0].path);
      if source[0] in destination {
        Looser(previous, source[0].path, BareEntries(tail));
      } else {
        assert BareEntries(Needed(source, destination))[1..] == BareEntries(tail);
      }
    }
  }

  lemma Looser(previous: Path, between: Path, entries: seq<Entry>)
    requires StrictlyAfter(previous, between) && between != [] && Ordered(between, entries, 0)
    ensures Ordered(previous, entries, 0)
  {
    if entries != [] && previous != [] {
      LessTransitive(previous, between, entries[0].path);
    }
  }

  /**
   * The server's plan-size check never fires: a plan built from a manifest that fit a frame is
   * itself a valid, non-empty payload no longer than the manifest's (or its own 12-byte prefix).
   */
  lemma PlanAlwaysFits(source: Manifest, destination: Manifest, plan: Plan, limit: nat)
    requires ValidManifest(source) && |EncodeManifest(source)| <= limit && 12 <= limit
    requires plan.uploadPaths == Needed(source, destination)
    ensures ValidPlan(plan) && 12 <= |EncodePlan(plan)| <= limit
  {
    hide Ordered;
    NeededOrdered([], source, destination);
    NeededIsSmaller(source, destination);
    EntrySizes(source);
    BareSizes(plan.uploadPaths);
  }
}
