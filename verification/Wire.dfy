/** The 32-byte frame header (src/common/codec.cpp, include/syncwire/common/protocol.hpp). */
module Wire {
  import opened Words

  const MAGIC: u32 := 0x5357_4952
  const VERSION: byte := 2
  const HEADER_SIZE: nat := 32
  const DEFAULT_MAX_PAYLOAD: u32 := 0x10_0000

  datatype MessageType =
    | Ping | Pong
    | AuthChallenge | AuthProof | AuthResult
    | UploadRequest | DownloadRequest | TransferReady | FileChunk | Acknowledgment
    | TransferComplete | TransferResult
    | SyncManifest | SyncPlan | SyncComplete | SyncResult
    | Error

  function TypeCode(t: MessageType): byte
  {
    match t
    case Ping => 0x01
    case Pong => 0x02
    case AuthChallenge => 0x10
    case AuthProof => 0x11
    case AuthResult => 0x12
    case UploadRequest => 0x20
    case DownloadRequest => 0x21
    case TransferReady => 0x22
    case FileChunk => 0x23
    case Acknowledgment => 0x24
    case TransferComplete => 0x25
    case TransferResult => 0x26
    case SyncManifest => 0x30
    case SyncPlan => 0x31
    case SyncComplete => 0x32
    case SyncResult => 0x33
    case Error => 0x7F
  }

  /** The message type a raw byte stands for, if it is a known one. */
  function TypeOf(raw: byte): (t: Option<MessageType>)
    ensures t.Some? ==> TypeCode(t.value) == raw
    ensures t.None? ==> forall m: MessageType :: TypeCode(m) != raw
  {
    if raw == 0x01 then Some(Ping)
    else if raw == 0x02 then Some(Pong)
    else if raw == 0x10 then Some(AuthChallenge)
    else if raw == 0x11 then Some(AuthProof)
    else if raw == 0x12 then Some(AuthResult)
    else if raw == 0x20 then Some(UploadRequest)
    else if raw == 0x21 then Some(DownloadRequest)
    else if raw == 0x22 then Some(TransferReady)
    else if raw == 0x23 then Some(FileChunk)
    else if raw == 0x24 then Some(Acknowledgment)
    else if raw == 0x25 then Some(TransferComplete)
    else if raw == 0x26 then Some(TransferResult)
    else if raw == 0x30 then Some(SyncManifest)
    else if raw == 0x31 then Some(SyncPlan)
    else if raw == 0x32 then Some(SyncComplete)
    else if raw == 0x33 then Some(SyncResult)
    else if raw == 0x7F then Some(Error)
    else None
  }

  datatype CodecError =
    | HeaderTooShort
    | InvalidMagic
    | UnsupportedVersion
    | InvalidHeaderSize
    | UnknownMessageType
    | UnsupportedFlags
    | PayloadTooLarge
    | InputBufferLimitExceeded

  datatype FrameHeader = FrameHeader(
    magic: u32,
    version: byte,
    messageType: MessageType,
    headerSize: u16,
    payloadLength: u32,
    flags: u32,
    requestId: u64,
    transferId: u64)

  /** The header a frame built by SyncWire itself carries. */
  function MakeHeader(t: MessageType, payloadLength: u32, requestId: u64, transferId: u64): FrameHeader
  {
    FrameHeader(MAGIC, VERSION, t, HEADER_SIZE, payloadLength, 0, requestId, transferId)
  }

  function HeaderBytes(h: FrameHeader): (bytes: Bytes)
    ensures |bytes| == HEADER_SIZE
  {
    PutUint(h.magic, 4) + [h.version, TypeCode(h.messageType)] + PutUint(h.headerSize, 2)
    + PutUint(h.payloadLength, 4) + PutUint(h.flags, 4)
    + PutUint(h.requestId, 8) + PutUint(h.transferId, 8)
  }

  /** `encode_header`: fills a zeroed 32-byte buffer field by field. */
  method EncodeHeader(h: FrameHeader) returns (out: array<byte>)
    ensures fresh(out) && out[..] == HeaderBytes(h)
  {
    hide PutUint;
    out := new byte[HEADER_SIZE](_ => 0);
    PutField(out, 0, h.magic, 4);
    out[4] := h.version;
    out[5] := TypeCode(h.messageType);
    PutField(out, 6, h.headerSize, 2);
    PutField(out, 8, h.payloadLength, 4);
    PutField(out, 12, h.flags, 4);
    PutField(out, 16, h.requestId, 8);
    PutField(out, 24, h.transferId, 8);
    assert out[0..4] == PutUint(h.magic, 4);
    assert out[4..6] == [h.version, TypeCode(h.messageType)];
    assert out[6..8] == PutUint(h.headerSize, 2);
    assert out[8..12] == PutUint(h.payloadLength, 4);
    assert out[12..16] == PutUint(h.flags, 4);
    assert out[16..24] == PutUint(h.requestId, 8);
    assert out[..] == out[0..4] + out[4..6] + out[6..8] + out[8..12] + out[12..16] + out[16..24] + out[24..32];
  }

  function Decode32(bytes: Bytes, offset: nat): (v: u32)
    requires offset + 4 <= |bytes|
  {
    GetBound(bytes[offset..offset + 4]);
    Widths();
    GetUint(bytes[offset..offset + 4])
  }

  function Decode16(bytes: Bytes, offset: nat): (v: u16)
    requires offset + 2 <= |bytes|
  {
    GetBound(bytes[offset..offset + 2]);
    Widths();
    GetUint(bytes[offset..offset + 2])
  }

  function Decode64(bytes: Bytes, offset: nat): (v: u64)
    requires offset + 8 <= |bytes|
  {
    GetBound(bytes[offset..offset + 8]);
    Widths();
    GetUint(bytes[offset..offset + 8])
  }

  function DecodeHeader(bytes: Bytes, maxPayload: u32): (r: Result<FrameHeader, CodecError>)
  {
    if |bytes| < HEADER_SIZE then Err(HeaderTooShort)
    else if Decode32(bytes, 0) != MAGIC then Err(InvalidMagic)
    else if bytes[4] != VERSION then Err(UnsupportedVersion)
    else if TypeOf(bytes[5]).None? then Err(UnknownMessageType)
    else if Decode16(bytes, 6) != HEADER_SIZE then Err(InvalidHeaderSize)
    else if Decode32(bytes, 8) > maxPayload then Err(PayloadTooLarge)
    else if Decode32(bytes, 12) != 0 then Err(UnsupportedFlags)
    else Ok(FrameHeader(Decode32(bytes, 0), bytes[4], TypeOf(bytes[5]).value, Decode16(bytes, 6),
                        Decode32(bytes, 8), Decode32(bytes, 12), Decode64(bytes, 16), Decode64(bytes, 24)))
  }

  /** The headers the protocol admits under a payload limit. */
  predicate Admissible(h: FrameHeader, maxPayload: u32)
  {
    && h.magic == MAGIC && h.version == VERSION && h.headerSize == HEADER_SIZE
    && h.payloadLength <= maxPayload && h.flags == 0
  }

  lemma HeaderFields(h: FrameHeader, rest: Bytes)
    ensures var b := HeaderBytes(h) + rest;
      && Decode32(b, 0) == h.magic && b[4] == h.version && TypeOf(b[5]) == Some(h.messageType)
      && Decode16(b, 6) == h.headerSize && Decode32(b, 8) == h.payloadLength
      && Decode32(b, 12) == h.flags && Decode64(b, 16) == h.requestId && Decode64(b, 24) == h.transferId
  {
    var b := HeaderBytes(h) + rest;
    assert b[0..4] == PutUint(h.magic, 4);
    assert b[6..8] == PutUint(h.headerSize, 2);
    assert b[8..12] == PutUint(h.payloadLength, 4);
    assert b[12..16] == PutUint(h.flags, 4);
    assert b[16..24] == PutUint(h.requestId, 8);
    assert b[24..32] == PutUint(h.transferId, 8);
    Widths();
    GetAfterPut(h.magic, 4);
    GetAfterPut(h.headerSize, 2);
    GetAfterPut(h.payloadLength, 4);
    GetAfterPut(h.flags, 4);
    GetAfterPut(h.requestId, 8);
    GetAfterPut(h.transferId, 8);
  }

  /** An encoded header comes back exactly when it is admissible, whatever follows it. */
  lemma HeaderRoundTrip(h: FrameHeader, rest: Bytes, maxPayload: u32)
    ensures DecodeHeader(HeaderBytes(h) + rest, maxPayload) == Ok(h) <==> Admissible(h, maxPayload)
  {
    HeaderFields(h, rest);
  }

  /** Every accepted header is admissible and is the one encoding of what it decodes to. */
  lemma HeaderCanonical(bytes: Bytes, maxPayload: u32)
    requires DecodeHeader(bytes, maxPayload).Ok?
    ensures var h := DecodeHeader(bytes, maxPayload).value;
      Admissible(h, maxPayload) && HeaderBytes(h) == bytes[..HEADER_SIZE]
  {
    PutAfterGet(bytes[0..4]);
    PutAfterGet(bytes[6..8]);
    PutAfterGet(bytes[8..12]);
    PutAfterGet(bytes[12..16]);
    PutAfterGet(bytes[16..24]);
    PutAfterGet(bytes[24..32]);
    assert bytes[..HEADER_SIZE] == bytes[0..4] + [bytes[4], bytes[5]] + bytes[6..8] + bytes[8..12]
                                   + bytes[12..16] + bytes[16..24] + bytes[24..32];
  }
}
