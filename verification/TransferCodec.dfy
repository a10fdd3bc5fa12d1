/** Payloads of the upload protocol (src/common/transfer_codec.cpp). */
module TransferCodec {
  import opened Words
  import opened Wire
  import opened Paths

  const METADATA_PREFIX: nat := 14
  const CHUNK_OFFSET: nat := 8

  datatype UploadMetadata = UploadMetadata(filename: Path, fileSize: u64, checksum: u32)
  datatype FileChunkData = Chunk(offset: u64, data: Bytes)
  datatype Checkpoint = Ready(offset: u64, prefixChecksum: u32)

  datatype ResultCode =
    | Success | InvalidRequest | InvalidPath | FileTooLarge | FileIoError
    | UnexpectedFrame | UnexpectedOffset | SizeMismatch | ChecksumMismatch

  datatype TransferCodecError =
    | PayloadTooShort | PayloadSizeMismatch | EmptyFilename | FilenameTooLong
    | UnsafeFilename | ChunkHasNoData | UnknownResultCode

  /** `append_u16`/`u32`/`u64`: pushes the field's bytes, most significant first. */
  method AppendField(output: Bytes, value: nat, width: nat) returns (output': Bytes)
    ensures output' == output + PutUint(value, width)
  {
    output' := output;
    for index := 0 to width
      invariant output' == output + PutUint(value, width)[..index]
    {
      PutUintAt(value, width, index);
      output' := output' + [DropBytes(value, width - 1 - index) % 256];
      assert PutUint(value, width)[..index + 1] == PutUint(value, width)[..index] + [PutUint(value, width)[index]];
    }
    assert PutUint(value, width)[..width] == PutUint(value, width);
  }

  // ---------------------------------------------------------------------------
  // Upload metadata.
  // ---------------------------------------------------------------------------

  function EncodeMetadata(m: UploadMetadata): (payload: Bytes)
  {
    if !Safe(m.filename) then [] else
      PutUint(|m.filename|, 2) + PutUint(m.fileSize, 8) + PutUint(m.checksum, 4) + m.filename
  }

  method EncodeUploadMetadata(m: UploadMetadata) returns (payload: Bytes)
    ensures payload == EncodeMetadata(m)
  {
    payload := [];
    var safe := IsSafeRemotePath(m.filename);
    if !safe {
      return;
    }
    payload := AppendField(payload, |m.filename|, 2);
    payload := AppendField(payload, m.fileSize, 8);
    payload := AppendField(payload, m.checksum, 4);
    ghost var prefix := payload;
    for i := 0 to |m.filename|
      invariant payload == prefix + m.filename[..i]
    {
      payload := payload + [m.filename[i]];
    }
    assert m.filename[..|m.filename|] == m.filename;
  }

  function DecodeMetadata(payload: Bytes): (r: Result<UploadMetadata, TransferCodecError>)
  {
    if |payload| < METADATA_PREFIX then Err(PayloadTooShort) else
      var length := Decode16(payload, 0);
      if length == 0 then Err(EmptyFilename)
      else if length > MAX_PATH then Err(FilenameTooLong)
      else if |payload| != METADATA_PREFIX + length then Err(PayloadSizeMismatch)
      else if !Safe(payload[METADATA_PREFIX..]) then Err(UnsafeFilename)
      else Ok(UploadMetadata(payload[METADATA_PREFIX..], Decode64(payload, 2), Decode32(payload, 10)))
  }

  /** Metadata with a safe name survives the wire; any other encodes to a payload that is refused. */
  lemma MetadataRoundTrip(m: UploadMetadata)
    ensures Safe(m.filename) ==> DecodeMetadata(EncodeMetadata(m)) == Ok(m)
    ensures !Safe(m.filename) ==> DecodeMetadata(EncodeMetadata(m)).Err?
  {
    hide Safe;
    if Safe(m.filename) {
      SafeLength(m.filename);
      var p := EncodeMetadata(m);
      assert p[0..2] == PutUint(|m.filename|, 2);
      assert p[2..10] == PutUint(m.fileSize, 8);
      assert p[10..14] == PutUint(m.checksum, 4);
      assert p[METADATA_PREFIX..] == m.filename;
      Widths();
      GetAfterPut(|m.filename|, 2);
      GetAfterPut(m.fileSize, 8);
      GetAfterPut(m.checksum, 4);
    }
  }

  /** Every accepted metadata payload is the one encoding of what it decodes to. */
  lemma MetadataCanonical(payload: Bytes)
    requires DecodeMetadata(payload).Ok?
    ensures var m := DecodeMetadata(payload).value; Safe(m.filename) && EncodeMetadata(m) == payload
  {
    hide Safe;
    PutAfterGet(payload[0..2]);
    PutAfterGet(payload[2..10]);
    PutAfterGet(payload[10..14]);
    assert payload == payload[0..2] + payload[2..10] + payload[10..14] + payload[14..];
  }

  // ---------------------------------------------------------------------------
  // Chunks, acknowledgments, offers and results.
  // ---------------------------------------------------------------------------

  function EncodeChunk(offset: u64, data: Bytes): Bytes
  {
    PutUint(offset, 8) + data
  }

  function DecodeChunk(payload: Bytes): (r: Result<FileChunkData, TransferCodecError>)
  {
    if |payload| < CHUNK_OFFSET then Err(PayloadTooShort)
    else if |payload| == CHUNK_OFFSET then Err(ChunkHasNoData)
    else Ok(Chunk(Decode64(payload, 0), payload[CHUNK_OFFSET..]))
  }

  lemma ChunkRoundTrip(offset: u64, data: Bytes)
    ensures DecodeChunk(EncodeChunk(offset, data))
         == if data == [] then Err(ChunkHasNoData) else Ok(Chunk(offset, data))
  {
    var p := EncodeChunk(offset, data);
    assert p[0..8] == PutUint(offset, 8) && p[8..] == data;
    Widths();
    GetAfterPut(offset, 8);
  }

  lemma ChunkCanonical(payload: Bytes)
    requires DecodeChunk(payload).Ok?
    ensures var c := DecodeChunk(payload).value; c.data != [] && EncodeChunk(c.offset, c.data) == payload
  {
    PutAfterGet(payload[0..8]);
    assert payload == payload[0..8] + payload[8..];
  }

  function EncodeOffset(offset: u64): Bytes { PutUint(offset, 8) }

  function DecodeOffset(payload: Bytes): (r: Result<u64, TransferCodecError>)
  {
    if |payload| != 8 then Err(PayloadSizeMismatch) else Ok(Decode64(payload, 0))
  }

  lemma OffsetRoundTrip(offset: u64)
    ensures DecodeOffset(EncodeOffset(offset)) == Ok(offset)
  {
    assert EncodeOffset(offset)[0..8] == PutUint(offset, 8);
    Widths();
    GetAfterPut(offset, 8);
  }

  function EncodeReady(r: Checkpoint): Bytes
  {
    EncodeOffset(r.offset) + PutUint(r.prefixChecksum, 4)
  }

  function DecodeReady(payload: Bytes): (r: Result<Checkpoint, TransferCodecError>)
  {
    if |payload| != 12 then Err(PayloadSizeMismatch)
    else Ok(Ready(Decode64(payload, 0), Decode32(payload, 8)))
  }

  lemma ReadyRoundTrip(r: Checkpoint)
    ensures DecodeReady(EncodeReady(r)) == Ok(r)
  {
    var p := EncodeReady(r);
    assert p[0..8] == PutUint(r.offset, 8) && p[8..12] == PutUint(r.prefixChecksum, 4);
    Widths();
    GetAfterPut(r.offset, 8);
    GetAfterPut(r.prefixChecksum, 4);
  }

  lemma ReadyCanonical(payload: Bytes)
    requires DecodeReady(payload).Ok?
    ensures EncodeReady(DecodeReady(payload).value) == payload
  {
    PutAfterGet(payload[0..8]);
    PutAfterGet(payload[8..12]);
    assert payload == payload[0..8] + payload[8..12];
  }

  function ResultByte(code: ResultCode): byte
  {
    match code
    case Success => 0
    case InvalidRequest => 1
    case InvalidPath => 2
    case FileTooLarge => 3
    case FileIoError => 4
    case UnexpectedFrame => 5
    case UnexpectedOffset => 6
    case SizeMismatch => 7
    case ChecksumMismatch => 8
  }

  function EncodeResult(code: ResultCode): Bytes { [ResultByte(code)] }

  function DecodeResult(payload: Bytes): (r: Result<ResultCode, TransferCodecError>)
    ensures r.Ok? <==> |payload| == 1 && payload[0] <= 8
    ensures r.Ok? ==> EncodeResult(r.value) == payload
  {
    if |payload| != 1 then Err(PayloadSizeMismatch)
    else if payload[0] == 0 then Ok(Success)
    else if payload[0] == 1 then Ok(InvalidRequest)
    else if payload[0] == 2 then Ok(InvalidPath)
    else if payload[0] == 3 then Ok(FileTooLarge)
    else if payload[0] == 4 then Ok(FileIoError)
    else if payload[0] == 5 then Ok(UnexpectedFrame)
    else if payload[0] == 6 then Ok(UnexpectedOffset)
    else if payload[0] == 7 then Ok(SizeMismatch)
    else if payload[0] == 8 then Ok(ChecksumMismatch)
    else Err(UnknownResultCode)
  }

  lemma ResultRoundTrip(code: ResultCode)
    ensures DecodeResult(EncodeResult(code)) == Ok(code)
  {
  }
}
