/** The incremental frame parser with lazy compaction (src/common/frame_parser.cpp). */
module FrameParser {
  import opened Words
  import opened Wire
  import opened Frames

  /** What a caller can tell about a parser: the bytes not yet turned into frames, and the sticky error. */
  datatype View = View(unread: Bytes, error: Option<CodecError>)

  const FRESH: View := View([], None)

  /** The call would have to buffer more than the parser may hold. */
  predicate Overflows(v: View, bytes: Bytes, maxBuffer: nat)
  {
    v.error.None? && |v.unread| + |bytes| > maxBuffer
  }

  /** One `consume` call: the frames it completes and the parser afterwards. */
  function Consumed(v: View, bytes: Bytes, maxPayload: u32, maxBuffer: nat): (r: (seq<Frame>, View))
  {
    if v.error.Some? then ([], v)
    else if Overflows(v, bytes, maxBuffer) then ([], View(v.unread, Some(InputBufferLimitExceeded)))
    else var p := Parse(v.unread + bytes, maxPayload); (p.frames, View(p.rest, p.error))
  }

  class FrameParser {
    const maxPayload: u32
    const maxBuffer: nat
    var buffer: Bytes
    var readOffset: nat
    var terminalError: Option<CodecError>

    ghost var parsed: nat // bytes turned into frames so far
    ghost var moved: nat  // bytes shifted down by compaction so far

    ghost predicate Valid()
      reads this
    {
      && HEADER_SIZE <= maxBuffer
      && readOffset <= |buffer|
      && |buffer| - readOffset <= maxBuffer
      && |buffer| < 2 * maxBuffer
      && readOffset <= parsed
      // Each compaction moves at most one byte more than the frames it drops, which are 32 bytes or longer.
      && 32 * moved <= 33 * (parsed - readOffset)
      && (0 < readOffset ==> HEADER_SIZE <= readOffset)
    }

    function Unread(): Bytes
      reads this
      requires readOffset <= |buffer|
    {
      buffer[readOffset..]
    }

    function Seen(): View
      reads this
      requires readOffset <= |buffer|
    {
      View(Unread(), terminalError)
    }

    constructor (maxPayload: u32, maxBuffer: nat)
      requires HEADER_SIZE <= maxBuffer
      ensures Valid() && Seen() == FRESH && parsed == 0 && moved == 0
      ensures this.maxPayload == maxPayload && this.maxBuffer == maxBuffer
    {
      this.maxPayload := maxPayload;
      this.maxBuffer := maxBuffer;
      buffer := [];
      readOffset := 0;
      terminalError := None;
      parsed := 0;
      moved := 0;
    }

    /** Drops the consumed front once it is all of the buffer or at least half of it. */
    method Compact()
      requires Valid()
      modifies this
      ensures Valid() && Seen() == old(Seen()) && parsed == old(parsed)
      ensures readOffset == 0 || readOffset + 2 <= |Unread()|
    {
      if readOffset == 0 {
        return;
      }
      if readOffset == |buffer| {
        buffer := [];
        readOffset := 0;
        return;
      }
      if readOffset >= |buffer| / 2 {
        moved := moved + (|buffer| - readOffset);
        buffer := buffer[readOffset..];
        readOffset := 0;
      }
    }

    method Consume(bytes: Bytes) returns (frames: seq<Frame>, error: Option<CodecError>)
      requires Valid()
      modifies this
      ensures Valid()
      ensures (frames, Seen()) == Consumed(old(Seen()), bytes, maxPayload, maxBuffer)
      ensures error == terminalError
      ensures parsed == old(parsed) + |StreamOf(frames)|
    {
      hide Parse, StreamOf;
      StreamOfNothing();
      if terminalError.Some? {
        return [], terminalError;
      }
      Compact();
      if |bytes| > maxBuffer - (|buffer| - readOffset) {
        terminalError := Some(InputBufferLimitExceeded);
        return [], terminalError;
      }
      buffer := buffer + bytes;
      assert Unread() == old(Unread()) + bytes;
      frames := ExtractFrames();
      if terminalError.None? {
        Compact();
      }
      error := terminalError;
    }

    /** The loop of `consume`: takes complete frames off the unread bytes until none is left or one is malformed. */
    method ExtractFrames() returns (frames: seq<Frame>)
      requires Valid() && terminalError.None?
      modifies this`readOffset, this`terminalError, this`parsed
      ensures Valid()
      ensures var p := Parse(old(Unread()), maxPayload);
        frames == p.frames && Unread() == p.rest && terminalError == p.error
      ensures parsed == old(parsed) + |StreamOf(frames)|
    {
      hide DecodeHeader, Parse, StreamOf;
      StreamOfNothing();
      frames := [];
      ghost var whole := Parse(Unread(), maxPayload);
      while |buffer| - readOffset >= HEADER_SIZE
        invariant Valid() && terminalError.None?
        invariant parsed == old(parsed) + |StreamOf(frames)|
        invariant Continues(whole, frames, Unread(), maxPayload)
        decreases |buffer| - readOffset
      {
        var available := buffer[readOffset..];
        ParseStep(whole, frames, available, maxPayload);
        var decoded := DecodeHeader(available[..HEADER_SIZE], maxPayload);
        if decoded.Err? {
          terminalError := Some(decoded.error);
          return;
        }
        var frameSize := HEADER_SIZE + decoded.value.payloadLength;
        if |available| < frameSize {
          return;
        }
        var frame := Frame(decoded.value, available[HEADER_SIZE..frameSize]);
        StreamOfAppend(frames, frame);
        frames := frames + [frame];
        readOffset := readOffset + frameSize;
        parsed := parsed + frameSize;
        assert Unread() == available[frameSize..];
      }
      ParseShort(whole, frames, Unread(), maxPayload);
    }
  }

  /** Parsing `rest` is what remains of `whole` once `done` has been completed. */
  ghost predicate Continues(whole: Parsed, done: seq<Frame>, rest: Bytes, maxPayload: u32)
  {
    var p := Parse(rest, maxPayload);
    whole == Parsed(done + p.frames, p.rest, p.error)
  }

  /** One round of the loop. */
  lemma ParseStep(whole: Parsed, done: seq<Frame>, rest: Bytes, maxPayload: u32)
    requires HEADER_SIZE <= |rest| && Continues(whole, done, rest, maxPayload)
    ensures var decoded := DecodeHeader(rest[..HEADER_SIZE], maxPayload);
      && (decoded.Err? ==> whole == Parsed(done, rest, Some(decoded.error)))
      && (decoded.Ok? ==>
            var size := HEADER_SIZE + decoded.value.payloadLength;
            if |rest| < size then whole == Parsed(done, rest, None)
            else Continues(whole, done + [Frame(decoded.value, rest[HEADER_SIZE..size])], rest[size..], maxPayload))
  {
    hide DecodeHeader;
    var decoded := DecodeHeader(rest[..HEADER_SIZE], maxPayload);
    if decoded.Ok? && HEADER_SIZE + decoded.value.payloadLength <= |rest| {
      var size := HEADER_SIZE + decoded.value.payloadLength;
      var f, q := Frame(decoded.value, rest[HEADER_SIZE..size]), Parse(rest[size..], maxPayload);
      assert done + ([f] + q.frames) == done + [f] + q.frames;
    } else {
      assert done + [] == done;
    }
  }

  lemma ParseShort(whole: Parsed, done: seq<Frame>, rest: Bytes, maxPayload: u32)
    requires |rest| < HEADER_SIZE && Continues(whole, done, rest, maxPayload)
    ensures whole == Parsed(done, rest, None)
  {
    assert done + [] == done;
  }

  lemma StreamOfNothing()
    ensures StreamOf([]) == []
  {
  }

  lemma {:induction false} StreamOfAppend(frames: seq<Frame>, f: Frame)
    ensures |StreamOf(frames + [f])| == |StreamOf(frames)| + HEADER_SIZE + |f.payload|
  {
    if frames == [] {
      assert frames + [f] == [f];
      assert StreamOf([f]) == FrameBytes(f) + StreamOf([]);
    } else {
      assert (frames + [f])[1..] == frames[1..] + [f];
      StreamOfAppend(frames[1..], f);
    }
  }

  // ---------------------------------------------------------------------------
  // Whole runs: any sequence of `consume` calls.
  // ---------------------------------------------------------------------------

  function ConsumedAll(v: View, chunks: seq<Bytes>, maxPayload: u32, maxBuffer: nat): (r: (seq<Frame>, View))
    decreases |chunks|
  {
    if chunks == [] then ([], v) else
      var (first, v') := Consumed(v, chunks[0], maxPayload, maxBuffer);
      var (later, v'') := ConsumedAll(v', chunks[1..], maxPayload, maxBuffer);
      (first + later, v'')
  }

  predicate NeverOverflows(v: View, chunks: seq<Bytes>, maxPayload: u32, maxBuffer: nat)
    decreases |chunks|
  {
    chunks != [] ==>
      && !Overflows(v, chunks[0], maxBuffer)
      && NeverOverflows(Consumed(v, chunks[0], maxPayload, maxBuffer).1, chunks[1..], maxPayload, maxBuffer)
  }

  function Concat(chunks: seq<Bytes>): Bytes
  {
    if chunks == [] then [] else chunks[0] + Concat(chunks[1..])
  }

  lemma {:induction false} FailedStays(v: View, chunks: seq<Bytes>, maxPayload: u32, maxBuffer: nat)
    requires v.error.Some?
    ensures ConsumedAll(v, chunks, maxPayload, maxBuffer) == ([], v)
    decreases |chunks|
  {
    if chunks != [] {
      FailedStays(v, chunks[1..], maxPayload, maxBuffer);
      var none: seq<Frame> := [];
      assert none + none == none;
    }
  }

  lemma {:induction false} ConsumedAllIsParse(v: View, chunks: seq<Bytes>, maxPayload: u32, maxBuffer: nat)
    requires v.error.None? && Parse(v.unread, maxPayload) == Parsed([], v.unread, None)
    requires NeverOverflows(v, chunks, maxPayload, maxBuffer)
    ensures var p := Parse(v.unread + Concat(chunks), maxPayload);
      var (frames, v') := ConsumedAll(v, chunks, maxPayload, maxBuffer);
      && frames == p.frames && v'.error == p.error
      && v'.unread <= p.rest && (p.error.None? ==> v'.unread == p.rest)
    decreases |chunks|
  {
    hide Parse;
    if chunks == [] {
      assert v.unread + Concat(chunks) == v.unread;
    } else {
      var input, tail := v.unread + chunks[0], Concat(chunks[1..]);
      assert v.unread + Concat(chunks) == input + tail;
      ParseContinues(input, tail, maxPayload);
      var p := Parse(input, maxPayload);
      var v' := View(p.rest, p.error);
      if p.error.Some? {
        FailedStays(v', chunks[1..], maxPayload, maxBuffer);
        assert p.rest <= p.rest + tail;
        assert p.frames + [] == p.frames;
      } else {
        RestIsIncomplete(input, maxPayload);
        ConsumedAllIsParse(v', chunks[1..], maxPayload, maxBuffer);
      }
    }
  }

  /**
   * Chunking independence: however a stream is cut into calls that stay within the buffer limit,
   * the frames and the sticky error are those of one parse of the whole stream, and of repeated
   * blocking reception; without an error the unread bytes are the same too.
   */
  lemma ChunkingIndependence(chunks: seq<Bytes>, maxPayload: u32, maxBuffer: nat)
    requires NeverOverflows(FRESH, chunks, maxPayload, maxBuffer)
    ensures var stream, (frames, v) := Concat(chunks), ConsumedAll(FRESH, chunks, maxPayload, maxBuffer);
      var p, (received, last) := Parse(stream, maxPayload), ReceiveAll(stream, maxPayload);
      && frames == p.frames == received
      && v.error == p.error
      && v.unread <= p.rest && (p.error.None? ==> v.unread == p.rest)
      && last == if v.error.Some? then InvalidHeader(v.error.value) else PeerClosed(|v.unread|)
  {
    hide Receive, ReceiveAll, ConsumedAll;
    var stream := Concat(chunks);
    assert [] + stream == stream;
    ConsumedAllIsParse(FRESH, chunks, maxPayload, maxBuffer);
    ParseIsReceiveAll(stream, maxPayload);
  }

  // ---------------------------------------------------------------------------
  // Byte-wise feeding and the size of the buffer.
  // ---------------------------------------------------------------------------

  function Singletons(stream: Bytes): (chunks: seq<Bytes>)
    ensures |chunks| == |stream|
  {
    seq(|stream|, i requires 0 <= i < |stream| => [stream[i]])
  }

  lemma {:induction false} LargeBufferNeverOverflows(v: View, stream: Bytes, maxPayload: u32, maxBuffer: nat)
    requires HEADER_SIZE + maxPayload <= maxBuffer
    requires v.error.None? ==> |v.unread| < HEADER_SIZE + maxPayload
    ensures NeverOverflows(v, Singletons(stream), maxPayload, maxBuffer)
    decreases |stream|
  {
    hide Parse;
    if stream != [] {
      var v' := Consumed(v, [stream[0]], maxPayload, maxBuffer).1;
      RestIsIncomplete(v.unread + [stream[0]], maxPayload);
      assert Singletons(stream)[1..] == Singletons(stream[1..]);
      LargeBufferNeverOverflows(v', stream[1..], maxPayload, maxBuffer);
    }
  }

  /** A well-formed frame with the largest payload. */
  function LargestFrame(maxPayload: u32): Bytes
  {
    HeaderBytes(MakeHeader(Ping, maxPayload, 1, 0)) + seq(maxPayload, _ => 0)
  }

  lemma LargestFramePrefix(maxPayload: u32, k: nat)
    requires k < |LargestFrame(maxPayload)|
    ensures Parse(LargestFrame(maxPayload)[..k], maxPayload) == Parsed([], LargestFrame(maxPayload)[..k], None)
  {
    if HEADER_SIZE <= k {
      var h := MakeHeader(Ping, maxPayload, 1, 0);
      HeaderRoundTrip(h, [], maxPayload);
      assert HeaderBytes(h) + [] == HeaderBytes(h) == LargestFrame(maxPayload)[..k][..HEADER_SIZE];
    }
  }

  lemma {:induction false} SmallBufferOverflows(k: nat, maxPayload: u32, maxBuffer: nat)
    requires k <= maxBuffer < HEADER_SIZE + maxPayload
    ensures var stream := LargestFrame(maxPayload);
      !NeverOverflows(View(stream[..k], None), Singletons(stream[k..]), maxPayload, maxBuffer)
    decreases maxBuffer - k
  {
    hide HeaderBytes, Parse;
    var stream := LargestFrame(maxPayload);
    if k < maxBuffer {
      assert stream[..k] + [stream[k]] == stream[..k + 1];
      LargestFramePrefix(maxPayload, k + 1);
      assert Singletons(stream[k..])[0] == [stream[k]];
      assert Singletons(stream[k..])[1..] == Singletons(stream[k + 1..]);
      SmallBufferOverflows(k + 1, maxPayload, maxBuffer);
    }
  }

  /**
   * Feeding byte by byte is safe for every stream exactly when the buffer can hold the largest
   * frame; otherwise a well-formed frame exists that can never be completed.
   */
  lemma ByteFeedingSafe(maxPayload: u32, maxBuffer: nat)
    requires HEADER_SIZE <= maxBuffer
    ensures HEADER_SIZE + maxPayload <= maxBuffer
      <==> forall stream: Bytes :: NeverOverflows(FRESH, Singletons(stream), maxPayload, maxBuffer)
  {
    hide NeverOverflows, HeaderBytes;
    if HEADER_SIZE + maxPayload <= maxBuffer {
      forall stream: Bytes
        ensures NeverOverflows(FRESH, Singletons(stream), maxPayload, maxBuffer)
      {
        LargeBufferNeverOverflows(FRESH, stream, maxPayload, maxBuffer);
      }
    } else {
      var stream := LargestFrame(maxPayload);
      SmallBufferOverflows(0, maxPayload, maxBuffer);
      assert stream[..0] == [] && stream[0..] == stream;
      assert !NeverOverflows(FRESH, Singletons(stream), maxPayload, maxBuffer);
    }
  }
}
