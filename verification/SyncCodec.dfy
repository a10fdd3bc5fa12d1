/** Manifest and plan payloads of directory synchronisation (src/common/sync_codec.cpp). */
module SyncCodec {
  import opened Words
  import opened Wire
  import opened Paths

  datatype FileRecord = FileRecord(path: Path, size: u64, checksum: u32)
  type Manifest = seq<FileRecord>

  datatype Plan = Plan(uploadPaths: seq<Path>, unchangedCount: u32, serverOnlyCount: u32)

  datatype SyncCodecError =
    | PayloadTooShort | PayloadSizeMismatch | TooManyEntries | PathTooLong | UnsafePath | PathsNotStrictlySorted
    | UnknownSyncResult

  // ---------------------------------------------------------------------------
  // Both payloads are lists of entries: a fixed-size part followed by a path, in strict path order.
  // ---------------------------------------------------------------------------

  datatype Entry = Entry(fixed: Bytes, path: Path)

  predicate StrictlyAfter(previous: Path, current: Path)
  {
    previous == [] || Less(previous, current)
  }

  /** Entries that may follow `previous`: safe paths in strictly increasing order. */
  predicate Ordered(previous: Path, entries: seq<Entry>, fixedSize: nat)
    decreases |entries|
  {
    entries == [] ||
    (&& StrictlyAfter(previous, entries[0].path)
     && Safe(entries[0].path) && |entries[0].fixed| == fixedSize
     && Ordered(entries[0].path, entries[1..], fixedSize))
  }

  function PathBytes(path: Path): Bytes
  {
    PutUint(|path|, 2) + path
  }

  function EntryBytes(entries: seq<Entry>): Bytes
  {
    if entries == [] then [] else entries[0].fixed + PathBytes(entries[0].path) + EntryBytes(entries[1..])
  }

  function TakePath(rest: Bytes): (r: Result<(Path, Bytes), SyncCodecError>)
    ensures r.Ok? ==> |r.value.1| < |rest|
  {
    if |rest| < 2 then Err(PayloadTooShort) else
      var size := Decode16(rest, 0);
      if size == 0 || size > MAX_PATH then Err(PathTooLong)
      else if size > |rest| - 2 then Err(PayloadTooShort)
      else if !Safe(rest[2..2 + size]) then Err(UnsafePath)
      else Ok((rest[2..2 + size], rest[2 + size..]))
  }

  function TakeEntries(rest: Bytes, count: nat, previous: Path, fixedSize: nat): (r: Result<seq<Entry>, SyncCodecError>)
    decreases count
  {
    if count == 0 then if rest != [] then Err(PayloadSizeMismatch) else Ok([])
    else if |rest| < fixedSize then Err(PayloadTooShort)
    else
      match TakePath(rest[fixedSize..])
      case Err(e) => Err(e)
      case Ok((path, rest')) =>
        if !StrictlyAfter(previous, path) then Err(PathsNotStrictlySorted) else
          match TakeEntries(rest', count - 1, path, fixedSize)
          case Err(e) => Err(e)
          case Ok(entries) => Ok([Entry(rest[..fixedSize], path)] + entries)
  }

  lemma TakePathRoundTrip(path: Path, rest: Bytes)
    requires Safe(path)
    ensures TakePath(PathBytes(path) + rest) == Ok((path, rest))
  {
    hide Safe;
    SafeLength(path);
    var p := PathBytes(path) + rest;
    assert p[0..2] == PutUint(|path|, 2);
    assert p[2..2 + |path|] == path && p[2 + |path|..] == rest;
    Widths();
    GetAfterPut(|path|, 2);
  }

  lemma TakePathCanonical(rest: Bytes)
    requires TakePath(rest).Ok?
    ensures var (path, rest') := TakePath(rest).value; Safe(path) && PathBytes(path) + rest' == rest
  {
    hide Safe;
    PutAfterGet(rest[0..2]);
    var size := Decode16(rest, 0);
    assert rest == rest[0..2] + rest[2..2 + size] + rest[2 + size..];
  }

  lemma {:induction false} EntriesRoundTrip(entries: seq<Entry>, previous: Path, fixedSize: nat)
    requires Ordered(previous, entries, fixedSize)
    ensures TakeEntries(EntryBytes(entries), |entries|, previous, fixedSize) == Ok(entries)
    decreases |entries|
  {
    hide Safe, TakePath, PathBytes;
    if entries != [] {
      var first, tail := entries[0], EntryBytes(entries[1..]);
      var rest := EntryBytes(entries);
      assert rest[..fixedSize] == first.fixed && rest[fixedSize..] == PathBytes(first.path) + tail;
      TakePathRoundTrip(first.path, tail);
      EntriesRoundTrip(entries[1..], first.path, fixedSize);
      assert entries == [first] + entries[1..];
    }
  }

  lemma {:induction false} EntriesCanonical(rest: Bytes, count: nat, previous: Path, fixedSize: nat)
    requires TakeEntries(rest, count, previous, fixedSize).Ok?
    ensures var entries := TakeEntries(rest, count, previous, fixedSize).value;
      |entries| == count && Ordered(previous, entries, fixedSize) && EntryBytes(entries) == rest
    decreases count
  {
    hide Safe, TakePath, PathBytes;
    if count != 0 {
      TakePathCanonical(rest[fixedSize..]);
      var (path, rest') := TakePath(rest[fixedSize..]).value;
      EntriesCanonical(rest', count - 1, path, fixedSize);
      var entries := TakeEntries(rest, count, previous, fixedSize).value;
      assert entries[1..] == TakeEntries(rest', count - 1, path, fixedSize).value;
      assert rest == rest[..fixedSize] + (PathBytes(path) + rest');
    }
  }

  // ---------------------------------------------------------------------------
  // The loops of the encoders and decoders.
  // ---------------------------------------------------------------------------

  function LastPath(previous: Path, entries: seq<Entry>): Path
  {
    if entries == [] then previous else entries[|entries| - 1].path
  }

  lemma {:induction false} OrderedAppend(previous: Path, entries: seq<Entry>, next: Entry, fixedSize: nat)
    ensures Ordered(previous, entries + [next], fixedSize) <==>
      && Ordered(previous, entries, fixedSize)
      && StrictlyAfter(LastPath(previous, entries), next.path)
      && Safe(next.path) && |next.fixed| == fixedSize
    decreases |entries|
  {
    hide Safe;
    if entries == [] {
      assert (entries + [next])[1..] == [];
    } else {
      assert (entries + [next])[1..] == entries[1..] + [next];
      OrderedAppend(entries[0].path, entries[1..], next, fixedSize);
    }
  }

  lemma {:induction false} OrderedPrefix(previous: Path, a: seq<Entry>, b: seq<Entry>, fixedSize: nat)
    requires Ordered(previous, a + b, fixedSize)
    ensures Ordered(previous, a, fixedSize)
    decreases |a|
  {
    if a != [] {
      assert (a + b)[1..] == a[1..] + b;
      OrderedPrefix(a[0].path, a[1..], b, fixedSize);
    }
  }

  lemma {:induction false} EntryBytesAppend(a: seq<Entry>, b: seq<Entry>)
    ensures EntryBytes(a + b) == EntryBytes(a) + EntryBytes(b)
  {
    if a == [] {
      assert a + b == b;
    } else {
      assert (a + b)[1..] == a[1..] + b;
      EntryBytesAppend(a[1..], b);
    }
  }

  /** `append_path`: appends the length and the bytes of a safe path, or refuses. */
  method AppendPath(output: Bytes, path: Path) returns (ok: bool, output': Bytes)
    ensures ok <==> Safe(path)
    ensures output' == if ok then output + PathBytes(path) else output
  {
    output' := output;
    ok := IsSafeRemotePath(path);
    if !ok || |path| > MAX_PATH {
      return;
    }
    output' := output' + PutUint(|path|, 2) + path;
  }

  /** The entry loop of both encoders: all the entries in order, or a refusal. */
  method AppendEntries(output: Bytes, entries: seq<Entry>, fixedSize: nat) returns (ok: bool, output': Bytes)
    requires forall e :: e in entries ==> |e.fixed| == fixedSize
    ensures ok <==> Ordered([], entries, fixedSize)
    ensures ok ==> output' == output + EntryBytes(entries)
  {
    hide Safe, Ordered, EntryBytes, PathBytes, StrictlyAfter;
    output' := output;
    var previous: Path := [];
    OrderedNothing([], fixedSize);
    NoEntryBytes();
    for i := 0 to |entries|
      invariant Ordered([], entries[..i], fixedSize)
      invariant previous == LastPath([], entries[..i])
      invariant output' == output + EntryBytes(entries[..i])
    {
      var e := entries[i];
      assert entries[..i + 1] == entries[..i] + [e];
      OrderedAppend([], entries[..i], e, fixedSize);
      if !StrictlyAfter(previous, e.path) {
        RefusedEarly(entries, i + 1, fixedSize);
        return false, output';
      }
      var appended;
      appended, output' := AppendPath(output' + e.fixed, e.path);
      if !appended {
        RefusedEarly(entries, i + 1, fixedSize);
        return false, output';
      }
      EntryBytesNext(entries, i);
      previous := e.path;
    }
    assert entries[..|entries|] == entries;
    ok := true;
  }

  lemma OrderedNothing(previous: Path, fixedSize: nat)
    ensures Ordered(previous, [], fixedSize)
  {
  }

  lemma RefusedEarly(entries: seq<Entry>, n: nat, fixedSize: nat)
    requires n <= |entries| && !Ordered([], entries[..n], fixedSize)
    ensures !Ordered([], entries, fixedSize)
  {
    if Ordered([], entries, fixedSize) {
      assert entries == entries[..n] + entries[n..];
      OrderedPrefix([], entries[..n], entries[n..], fixedSize);
    }
  }

  lemma NoEntryBytes()
    ensures EntryBytes([]) == []
  {
  }

  lemma EntryBytesNext(entries: seq<Entry>, i: nat)
    requires i < |entries|
    ensures EntryBytes(entries[..i + 1]) == EntryBytes(entries[..i]) + entries[i].fixed + PathBytes(entries[i].path)
  {
    hide PathBytes;
    assert entries[..i + 1] == entries[..i] + [entries[i]];
    EntryBytesAppend(entries[..i], [entries[i]]);
    assert EntryBytes([entries[i]]) == entries[i].fixed + PathBytes(entries[i].path);
  }

  /** `decode_path`: advances the offset past one path. */
  method DecodePath(payload: Bytes, offset: nat) returns (r: Result<Path, SyncCodecError>, offset': nat)
    requires offset <= |payload|
    ensures r.Err? <==> TakePath(payload[offset..]).Err?
    ensures r.Err? ==> TakePath(payload[offset..]) == Err(r.error)
    ensures r.Ok? ==> offset' <= |payload| && TakePath(payload[offset..]) == Ok((r.value, payload[offset'..]))
  {
    offset' := offset;
    ghost var rest := payload[offset..];
    if |payload| - offset < 2 {
      return Err(PayloadTooShort), offset';
    }
    var size := GetField(payload, offset, 2);
    assert payload[offset..offset + 2] == rest[0..2];
    offset' := offset + 2;
    if size == 0 || size > MAX_PATH {
      return Err(PathTooLong), offset';
    }
    if size > |payload| - offset' {
      return Err(PayloadTooShort), offset';
    }
    var path := payload[offset'..offset' + size];
    assert path == rest[2..2 + size];
    offset' := offset' + size;
    assert payload[offset'..] == rest[2 + size..];
    var safe := IsSafeRemotePath(path);
    if !safe {
      return Err(UnsafePath), offset';
    }
    return Ok(path), offset';
  }

  /** The entry loop of both decoders, moving `offset` and `previous` along. */
  method DecodeEntries(payload: Bytes, start: nat, count: nat, fixedSize: nat)
    returns (r: Result<seq<Entry>, SyncCodecError>)
    requires start <= |payload|
    ensures r == TakeEntries(payload[start..], count, [], fixedSize)
  {
    hide Safe, TakePath;
    var offset := start;
    var previous: Path := [];
    var entries: seq<Entry> := [];
    ghost var whole := TakeEntries(payload[start..], count, [], fixedSize);
    assert whole.Ok? ==> entries + whole.value == whole.value;
    for index := 0 to count
      invariant 0 <= offset <= |payload|
      invariant whole == Prepend(entries, TakeEntries(payload[offset..], count - index, previous, fixedSize))
    {
      ghost var rest := payload[offset..];
      if |payload| - offset < fixedSize {
        return Err(PayloadTooShort);
      }
      var fixed := payload[offset..offset + fixedSize];
      assert fixed == rest[..fixedSize] && payload[offset + fixedSize..] == rest[fixedSize..];
      var decoded, offset' := DecodePath(payload, offset + fixedSize);
      if decoded.Err? {
        return Err(decoded.error);
      }
      var path := decoded.value;
      if !StrictlyAfter(previous, path) {
        return Err(PathsNotStrictlySorted);
      }
      PrependOne(entries, Entry(fixed, path), TakeEntries(payload[offset'..], count - index - 1, path, fixedSize));
      previous := path;
      entries := entries + [Entry(fixed, path)];
      offset := offset';
    }
    if offset != |payload| {
      return Err(PayloadSizeMismatch);
    }
    assert payload[offset..] == [] && entries + [] == entries;
    return Ok(entries);
  }

  function Prepend(entries: seq<Entry>, r: Result<seq<Entry>, SyncCodecError>): Result<seq<Entry>, SyncCodecError>
  {
    if r.Err? then r else Ok(entries + r.value)
  }

  lemma PrependOne(entries: seq<Entry>, e: Entry, r: Result<seq<Entry>, SyncCodecError>)
    ensures Prepend(entries + [e], r) == Prepend(entries, Prepend([e], r))
  {
    if r.Ok? {
      assert entries + [e] + r.value == entries + ([e] + r.value);
    }
  }

  // ---------------------------------------------------------------------------
  // Manifests.
  // ---------------------------------------------------------------------------

  const RECORD_FIXED: nat := 12

  function EntryOf(r: FileRecord): (e: Entry)
    ensures |e.fixed| == RECORD_FIXED
  {
    Entry(PutUint(r.size, 8) + PutUint(r.checksum, 4), r.path)
  }

  function RecordOf(e: Entry): FileRecord
    requires |e.fixed| == RECORD_FIXED
  {
    FileRecord(e.path, Decode64(e.fixed, 0), Decode32(e.fixed, 8))
  }

  lemma RecordEntryInverse(r: FileRecord, e: Entry)
    requires |e.fixed| == RECORD_FIXED
    ensures RecordOf(EntryOf(r)) == r && EntryOf(RecordOf(e)) == e
  {
    var f := EntryOf(r).fixed;
    assert f[0..8] == PutUint(r.size, 8) && f[8..12] == PutUint(r.checksum, 4);
    Widths();
    GetAfterPut(r.size, 8);
    GetAfterPut(r.checksum, 4);
    PutAfterGet(e.fixed[0..8]);
    PutAfterGet(e.fixed[8..12]);
    assert e.fixed == e.fixed[0..8] + e.fixed[8..12];
  }

  function EntriesOf(files: Manifest): (entries: seq<Entry>)
    ensures |entries| == |files|
  {
    seq(|files|, i requires 0 <= i < |files| => EntryOf(files[i]))
  }

  function RecordsOf(entries: seq<Entry>): (files: Manifest)
    requires forall e :: e in entries ==> |e.fixed| == RECORD_FIXED
    ensures |files| == |entries|
  {
    seq(|entries|, i requires 0 <= i < |entries| => RecordOf(entries[i]))
  }

  /** What the encoder accepts: a 32-bit count of safe paths in strictly increasing order. */
  predicate ValidManifest(files: Manifest)
  {
    |files| < U32_LIMIT && Ordered([], EntriesOf(files), RECORD_FIXED)
  }

  /** The encoded manifest, or nothing when it is not valid. */
  function EncodeManifest(files: Manifest): Bytes
  {
    if ValidManifest(files) then PutUint(|files|, 4) + EntryBytes(EntriesOf(files)) else []
  }

  method EncodeManifestPayload(files: Manifest) returns (payload: Bytes)
    ensures payload == EncodeManifest(files)
  {
    if |files| >= U32_LIMIT {
      return [];
    }
    var ok;
    ok, payload := AppendEntries(PutUint(|files|, 4), EntriesOf(files), RECORD_FIXED);
    if !ok {
      return [];
    }
  }

  lemma {:induction false} OrderedFixed(previous: Path, entries: seq<Entry>, fixedSize: nat)
    requires Ordered(previous, entries, fixedSize)
    ensures forall e :: e in entries ==> |e.fixed| == fixedSize
    decreases |entries|
  {
    if entries != [] {
      OrderedFixed(entries[0].path, entries[1..], fixedSize);
    }
  }

  function DecodeManifest(payload: Bytes, maxEntries: nat): (r: Result<Manifest, SyncCodecError>)
  {
    if |payload| < 4 then Err(PayloadTooShort) else
      var count := Decode32(payload, 0);
      if count > maxEntries then Err(TooManyEntries) else
        match TakeEntries(payload[4..], count, [], RECORD_FIXED)
        case Err(e) => Err(e)
        case Ok(entries) =>
          EntriesCanonical(payload[4..], count, [], RECORD_FIXED);
          OrderedFixed([], entries, RECORD_FIXED);
          Ok(RecordsOf(entries))
  }

  method DecodeManifestPayload(payload: Bytes, maxEntries: nat) returns (r: Result<Manifest, SyncCodecError>)
    ensures r == DecodeManifest(payload, maxEntries)
  {
    if |payload| < 4 {
      return Err(PayloadTooShort);
    }
    var count := GetField(payload, 0, 4);
    if count > maxEntries {
      return Err(TooManyEntries);
    }
    var decoded := DecodeEntries(payload, 4, count, RECORD_FIXED);
    if decoded.Err? {
      return Err(decoded.error);
    }
    EntriesCanonical(payload[4..], count, [], RECORD_FIXED);
    OrderedFixed([], decoded.value, RECORD_FIXED);
    return Ok(RecordsOf(decoded.value));
  }

  /** Every valid manifest within the entry limit comes back from its payload. */
  lemma ManifestRoundTrip(files: Manifest, maxEntries: nat)
    requires ValidManifest(files) && |files| <= maxEntries
    ensures DecodeManifest(EncodeManifest(files), maxEntries) == Ok(files)
  {
    hide Ordered, EntryBytes;
    var p, entries := EncodeManifest(files), EntriesOf(files);
    assert p[0..4] == PutUint(|files|, 4) && p[4..] == EntryBytes(entries);
    Widths();
    GetAfterPut(|files|, 4);
    EntriesRoundTrip(entries, [], RECORD_FIXED);
    forall i | 0 <= i < |files|
      ensures RecordOf(entries[i]) == files[i]
    {
      RecordEntryInverse(files[i], entries[i]);
    }
    assert RecordsOf(entries) == files;
  }

  /** Every accepted payload is the encoding of the manifest it decodes to. */
  lemma ManifestCanonical(payload: Bytes, maxEntries: nat)
    requires DecodeManifest(payload, maxEntries).Ok?
    ensures var files := DecodeManifest(payload, maxEntries).value;
      ValidManifest(files) && |files| <= maxEntries && EncodeManifest(files) == payload
  {
    hide Ordered, EntryBytes;
    var count := Decode32(payload, 0);
    var entries := TakeEntries(payload[4..], count, [], RECORD_FIXED).value;
    EntriesCanonical(payload[4..], count, [], RECORD_FIXED);
    OrderedFixed([], entries, RECORD_FIXED);
    var files := RecordsOf(entries);
    forall i | 0 <= i < |entries|
      ensures EntryOf(files[i]) == entries[i]
    {
      RecordEntryInverse(files[i], entries[i]);
    }
    assert EntriesOf(files) == entries;
    PutAfterGet(payload[0..4]);
    assert payload == payload[0..4] + payload[4..];
  }

  // ---------------------------------------------------------------------------
  // Plans.
  // ---------------------------------------------------------------------------

  function BareEntries(paths: seq<Path>): (entries: seq<Entry>)
    ensures |entries| == |paths|
  {
    seq(|paths|, i requires 0 <= i < |paths| => Entry([], paths[i]))
  }

  function BarePaths(entries: seq<Entry>): (paths: seq<Path>)
    ensures |paths| == |entries|
  {
    seq(|entries|, i requires 0 <= i < |entries| => entries[i].path)
  }

  predicate ValidPlan(plan: Plan)
  {
    |plan.uploadPaths| < U32_LIMIT && Ordered([], BareEntries(plan.uploadPaths), 0)
  }

  function PlanPrefix(plan: Plan): Bytes
  {
    PutUint(|plan.uploadPaths|, 4) + PutUint(plan.unchangedCount, 4) + PutUint(plan.serverOnlyCount, 4)
  }

  function EncodePlan(plan: Plan): Bytes
  {
    if ValidPlan(plan) then PlanPrefix(plan) + EntryBytes(BareEntries(plan.uploadPaths)) else []
  }

  method EncodeSyncPlan(plan: Plan) returns (payload: Bytes)
    ensures payload == EncodePlan(plan)
  {
    if |plan.uploadPaths| >= U32_LIMIT {
      return [];
    }
    var ok;
    ok, payload := AppendEntries(PlanPrefix(plan), BareEntries(plan.uploadPaths), 0);
    if !ok {
      return [];
    }
  }

  function DecodePlan(payload: Bytes, maxEntries: nat): (r: Result<Plan, SyncCodecError>)
  {
    if |payload| < 12 then Err(PayloadTooShort) else
      var count := Decode32(payload, 0);
      if count > maxEntries then Err(TooManyEntries) else
        match TakeEntries(payload[12..], count, [], 0)
        case Err(e) => Err(e)
        case Ok(entries) => Ok(Plan(BarePaths(entries), Decode32(payload, 4), Decode32(payload, 8)))
  }

  method DecodeSyncPlan(payload: Bytes, maxEntries: nat) returns (r: Result<Plan, SyncCodecError>)
    ensures r == DecodePlan(payload, maxEntries)
  {
    if |payload| < 12 {
      return Err(PayloadTooShort);
    }
    var count := GetField(payload, 0, 4);
    if count > maxEntries {
      return Err(TooManyEntries);
    }
    var decoded := DecodeEntries(payload, 12, count, 0);
    if decoded.Err? {
      return Err(decoded.error);
    }
    return Ok(Plan(BarePaths(decoded.value), Decode32(payload, 4), Decode32(payload, 8)));
  }

  lemma PlanRoundTrip(plan: Plan, maxEntries: nat)
    requires ValidPlan(plan) && |plan.uploadPaths| <= maxEntries
    ensures DecodePlan(EncodePlan(plan), maxEntries) == Ok(plan)
  {
    hide Ordered, EntryBytes;
    var p, entries := EncodePlan(plan), BareEntries(plan.uploadPaths);
    assert p[0..4] == PutUint(|plan.uploadPaths|, 4);
    assert p[4..8] == PutUint(plan.unchangedCount, 4);
    assert p[8..12] == PutUint(plan.serverOnlyCount, 4);
    assert p[12..] == EntryBytes(entries);
    Widths();
    GetAfterPut(|plan.uploadPaths|, 4);
    GetAfterPut(plan.unchangedCount, 4);
    GetAfterPut(plan.serverOnlyCount, 4);
    EntriesRoundTrip(entries, [], 0);
    assert BarePaths(entries) == plan.uploadPaths;
  }

  lemma PlanCanonical(payload: Bytes, maxEntries: nat)
    requires DecodePlan(payload, maxEntries).Ok?
    ensures var plan := DecodePlan(payload, maxEntries).value;
      ValidPlan(plan) && |plan.uploadPaths| <= maxEntries && EncodePlan(plan) == payload
  {
    hide Ordered, EntryBytes;
    var count := Decode32(payload, 0);
    var entries := TakeEntries(payload[12..], count, [], 0).value;
    EntriesCanonical(payload[12..], count, [], 0);
    OrderedFixed([], entries, 0);
    forall i | 0 <= i < |entries|
      ensures Entry([], BarePaths(entries)[i]) == entries[i]
    {
      assert |entries[i].fixed| == 0;
    }
    assert BareEntries(BarePaths(entries)) == entries;
    PutAfterGet(payload[0..4]);
    PutAfterGet(payload[4..8]);
    PutAfterGet(payload[8..12]);
    assert payload == payload[0..4] + payload[4..8] + payload[8..12] + payload[12..];
  }
}
