/** Whole frames on a byte stream: sending, blocking reception, and the one-shot parse. */
module Frames {
  import opened Words
  import opened Wire

  datatype Frame = Frame(header: FrameHeader, payload: Bytes)

  /** `send_frame` refuses a frame whose own header would not be accepted back. */
  predicate Sendable(f: Frame)
  {
    |f.payload| == f.header.payloadLength && Admissible(f.header, DEFAULT_MAX_PAYLOAD)
  }

  function FrameBytes(f: Frame): Bytes
  {
    HeaderBytes(f.header) + f.payload
  }

  function StreamOf(frames: seq<Frame>): Bytes
  {
    if frames == [] then [] else FrameBytes(frames[0]) + StreamOf(frames[1..])
  }

  /** A connection that takes this many more bytes and then fails, by the peer's close or a system error. */
  datatype Break = Break(after: nat, closed: bool)

  datatype SendStatus = Sent | InvalidFrame | SendFailed(transferred: nat, closed: bool)

  /** `send_all`: all of the data, or as much as the connection takes. */
  method SendAll(stream: Bytes, data: Bytes, broken: Option<Break>)
    returns (ok: bool, stream': Bytes, broken': Option<Break>)
    ensures ok <==> broken.None? || |data| <= broken.value.after
    ensures stream' == stream + if ok then data else data[..broken.value.after]
    ensures broken' == if ok && broken.Some? then Some(broken.value.(after := broken.value.after - |data|)) else broken
  {
    ok := broken.None? || |data| <= broken.value.after;
    stream' := stream + if ok then data else data[..broken.value.after];
    broken' := if ok && broken.Some? then Some(broken.value.(after := broken.value.after - |data|)) else broken;
  }

  /** The header, and the payload if the header went out. */
  method SendBoth(stream: Bytes, header: Bytes, payload: Bytes, broken: Option<Break>)
    returns (status: SendStatus, stream': Bytes)
    ensures status.Sent? <==> broken.None? || |header + payload| <= broken.value.after
    ensures status.Sent? ==> stream' == stream + (header + payload)
    ensures !status.Sent? ==>
      && broken.Some? && status == SendFailed(broken.value.after, broken.value.closed)
      && stream' == stream + (header + payload)[..broken.value.after]
  {
    var ok, left;
    ok, stream', left := SendAll(stream, header, broken);
    if !ok {
      assert (header + payload)[..broken.value.after] == header[..broken.value.after];
      return SendFailed(broken.value.after, broken.value.closed), stream';
    }
    ok, stream', left := SendAll(stream', payload, left);
    if !ok {
      assert (header + payload)[..broken.value.after] == header + payload[..left.value.after];
      return SendFailed(|header| + left.value.after, left.value.closed), stream';
    }
    return Sent, stream';
  }

  /** `send_frame`: the frame's bytes join the stream, or those before the failure do, or none of an invalid frame. */
  method SendFrame(stream: Bytes, f: Frame, broken: Option<Break>) returns (status: SendStatus, stream': Bytes)
    ensures status.InvalidFrame? <==> !Sendable(f)
    ensures status.Sent? <==> Sendable(f) && (broken.None? || |FrameBytes(f)| <= broken.value.after)
    ensures status.Sent? ==> stream' == stream + FrameBytes(f)
    ensures status.InvalidFrame? ==> stream' == stream
    ensures status.SendFailed? ==>
      && broken.Some? && status == SendFailed(broken.value.after, broken.value.closed)
      && broken.value.after < |FrameBytes(f)|
      && stream' == stream + FrameBytes(f)[..broken.value.after]
  {
    hide HeaderBytes;
    if |f.payload| != f.header.payloadLength {
      return InvalidFrame, stream;
    }
    var encoded := EncodeHeader(f.header);
    var header := encoded[..];
    HeaderRoundTrip(f.header, [], DEFAULT_MAX_PAYLOAD);
    HeaderFields(f.header, []);
    assert HeaderBytes(f.header) + [] == HeaderBytes(f.header);
    if DecodeHeader(header, DEFAULT_MAX_PAYLOAD).Err? {
      return InvalidFrame, stream;
    }
    HeaderCanonical(header, DEFAULT_MAX_PAYLOAD);
    status, stream' := SendBoth(stream, header, f.payload, broken);
  }

  // ---------------------------------------------------------------------------
  // Blocking reception.
  // ---------------------------------------------------------------------------

  datatype Received =
    | Got(frame: Frame, rest: Bytes)
    | PeerClosed(transferred: nat)
    | ReceiveFailed(transferred: nat)
    | InvalidHeader(error: CodecError)

  /** What one `receive_frame` yields on a stream that the peer closes after `stream`. */
  function Receive(stream: Bytes, maxPayload: u32): (r: Received)
    ensures r.Got? ==> |r.rest| + HEADER_SIZE <= |stream|
    ensures !r.ReceiveFailed?
  {
    if |stream| < HEADER_SIZE then PeerClosed(|stream|) else
      match DecodeHeader(stream[..HEADER_SIZE], maxPayload)
      case Err(e) => InvalidHeader(e)
      case Ok(h) =>
        var size := HEADER_SIZE + h.payloadLength;
        if |stream| < size then PeerClosed(|stream|)
        else Got(Frame(h, stream[HEADER_SIZE..size]), stream[size..])
  }

  /** A stream that ends in a system error and not in the peer's close. */
  function EndedBy(r: Received, closes: bool): Received
  {
    if r.PeerClosed? && !closes then ReceiveFailed(r.transferred) else r
  }

  /** A socket whose peer has sent `incoming` and will then close, or which will then fail. */
  class Socket {
    var incoming: Bytes
    const closes: bool

    constructor (bytes: Bytes, closes: bool)
      ensures incoming == bytes && this.closes == closes
    {
      incoming := bytes;
      this.closes := closes;
    }

    /** `recv_exact`: all the bytes asked for, or as many as there were before the close. */
    method RecvExact(count: nat) returns (ok: bool, data: Bytes)
      modifies this
      ensures ok <==> count <= |old(incoming)|
      ensures data + incoming == old(incoming)
      ensures |data| == if ok then count else |old(incoming)|
    {
      ok := count <= |incoming|;
      var taken := if ok then count else |incoming|;
      data := incoming[..taken];
      incoming := incoming[taken..];
    }

    method ReceiveFrame(maxPayload: u32) returns (r: Received)
      modifies this
      ensures r == EndedBy(Receive(old(incoming), maxPayload), closes)
      ensures r.Got? ==> incoming == r.rest
    {
      var ok, header := RecvExact(HEADER_SIZE);
      if !ok {
        return EndedBy(PeerClosed(|header|), closes);
      }
      assert header == old(incoming)[..HEADER_SIZE];
      var decoded := DecodeHeader(header, maxPayload);
      if decoded.Err? {
        return InvalidHeader(decoded.error);
      }
      var payload;
      ok, payload := RecvExact(decoded.value.payloadLength);
      if !ok {
        return EndedBy(PeerClosed(HEADER_SIZE + |payload|), closes);
      }
      var size := HEADER_SIZE + decoded.value.payloadLength;
      assert old(incoming) == header + payload + incoming;
      assert payload == old(incoming)[HEADER_SIZE..size] && incoming == old(incoming)[size..];
      return Got(Frame(decoded.value, payload), incoming);
    }
  }

  /** Everything that repeated `receive_frame` calls obtain, and how the last one ends. */
  function ReceiveAll(stream: Bytes, maxPayload: u32): (r: (seq<Frame>, Received))
    ensures !r.1.Got? && !r.1.ReceiveFailed?
    decreases |stream|
  {
    match Receive(stream, maxPayload)
    case Got(f, rest) =>
      var (frames, last) := ReceiveAll(rest, maxPayload);
      ([f] + frames, last)
    case stop => ([], stop)
  }

  // ---------------------------------------------------------------------------
  // One-shot parse of a whole stream.
  // ---------------------------------------------------------------------------

  datatype Parsed = Parsed(frames: seq<Frame>, rest: Bytes, error: Option<CodecError>)

  function Parse(stream: Bytes, maxPayload: u32): (p: Parsed)
    decreases |stream|
  {
    if |stream| < HEADER_SIZE then Parsed([], stream, None) else
      match DecodeHeader(stream[..HEADER_SIZE], maxPayload)
      case Err(e) => Parsed([], stream, Some(e))
      case Ok(h) =>
        var size := HEADER_SIZE + h.payloadLength;
        if |stream| < size then Parsed([], stream, None) else
          var p := Parse(stream[size..], maxPayload);
          Parsed([Frame(h, stream[HEADER_SIZE..size])] + p.frames, p.rest, p.error)
  }

  /** The parse and repeated blocking reception see the same frames and the same end. */
  lemma {:induction false} ParseIsReceiveAll(stream: Bytes, maxPayload: u32)
    ensures var p, (frames, last) := Parse(stream, maxPayload), ReceiveAll(stream, maxPayload);
      && p.frames == frames
      && last == if p.error.Some? then InvalidHeader(p.error.value) else PeerClosed(|p.rest|)
    decreases |stream|
  {
    match Receive(stream, maxPayload)
    case Got(_, rest) => ParseIsReceiveAll(rest, maxPayload);
    case _ =>
  }

  /** The parse, one blocking reception at a time. */
  lemma ParseByReceive(stream: Bytes, maxPayload: u32)
    ensures var r, p := Receive(stream, maxPayload), Parse(stream, maxPayload);
      && (r.Got? ==> var q := Parse(r.rest, maxPayload); p == Parsed([r.frame] + q.frames, q.rest, q.error))
      && (r.InvalidHeader? ==> p == Parsed([], stream, Some(r.error)))
      && (r.PeerClosed? ==> p == Parsed([], stream, None))
  {
    hide DecodeHeader;
  }

  lemma ReceiveConserves(stream: Bytes, maxPayload: u32)
    requires Receive(stream, maxPayload).Got?
    ensures var r := Receive(stream, maxPayload);
      && FrameBytes(r.frame) + r.rest == stream
      && Admissible(r.frame.header, maxPayload) && |r.frame.payload| == r.frame.header.payloadLength
  {
    HeaderCanonical(stream[..HEADER_SIZE], maxPayload);
  }

  /** No byte is lost or invented: the frames and the remainder are the stream. */
  lemma {:induction false} ParseConserves(stream: Bytes, maxPayload: u32)
    ensures var p := Parse(stream, maxPayload);
      && StreamOf(p.frames) + p.rest == stream
      && forall f :: f in p.frames ==> Admissible(f.header, maxPayload) && |f.payload| == f.header.payloadLength
    decreases |stream|
  {
    hide Receive, Parse, Admissible, FrameBytes;
    ParseByReceive(stream, maxPayload);
    var r := Receive(stream, maxPayload);
    if r.Got? {
      ParseConserves(r.rest, maxPayload);
      ReceiveConserves(stream, maxPayload);
      var p, q := Parse(stream, maxPayload), Parse(r.rest, maxPayload);
      assert p.frames[1..] == q.frames;
      assert StreamOf(p.frames) + p.rest == FrameBytes(r.frame) + (StreamOf(q.frames) + q.rest);
    } else {
      assert StreamOf([]) + stream == stream;
    }
  }

  lemma ReceiveSent(f: Frame, rest: Bytes)
    requires Sendable(f)
    ensures Receive(FrameBytes(f) + rest, DEFAULT_MAX_PAYLOAD) == Got(f, rest)
  {
    hide DecodeHeader, HeaderBytes;
    var stream := FrameBytes(f) + rest;
    HeaderRoundTrip(f.header, [], DEFAULT_MAX_PAYLOAD);
    assert HeaderBytes(f.header) + [] == HeaderBytes(f.header) == stream[..HEADER_SIZE];
    var size := HEADER_SIZE + |f.payload|;
    assert stream[HEADER_SIZE..size] == f.payload && stream[size..] == rest;
  }

  /** Everything sent is received: frames survive serialisation, in order, with nothing left over. */
  lemma {:induction false} StreamRoundTrip(frames: seq<Frame>)
    requires forall f :: f in frames ==> Sendable(f)
    ensures Parse(StreamOf(frames), DEFAULT_MAX_PAYLOAD) == Parsed(frames, [], None)
  {
    hide DecodeHeader, HeaderBytes, FrameBytes, Sendable;
    if frames != [] {
      ReceiveSent(frames[0], StreamOf(frames[1..]));
      StreamRoundTrip(frames[1..]);
      assert frames == [frames[0]] + frames[1..];
    }
  }

  /** Bytes that arrive later do not change what was already decided. */
  lemma ReceiveExtends(a: Bytes, b: Bytes, maxPayload: u32)
    ensures var r := Receive(a, maxPayload);
      && (r.Got? ==> Receive(a + b, maxPayload) == Got(r.frame, r.rest + b))
      && (r.InvalidHeader? ==> Receive(a + b, maxPayload) == r)
  {
    hide DecodeHeader;
    if HEADER_SIZE <= |a| {
      assert (a + b)[..HEADER_SIZE] == a[..HEADER_SIZE];
      var decoded := DecodeHeader(a[..HEADER_SIZE], maxPayload);
      if decoded.Ok? && HEADER_SIZE + decoded.value.payloadLength <= |a| {
        var size := HEADER_SIZE + decoded.value.payloadLength;
        assert (a + b)[HEADER_SIZE..size] == a[HEADER_SIZE..size];
        assert (a + b)[size..] == a[size..] + b;
      }
    }
  }

  /** Parsing a longer stream continues from where the shorter parse stopped. */
  lemma {:induction false} ParseContinues(a: Bytes, b: Bytes, maxPayload: u32)
    ensures var p := Parse(a, maxPayload);
      Parse(a + b, maxPayload) ==
        if p.error.Some? then Parsed(p.frames, p.rest + b, p.error)
        else var q := Parse(p.rest + b, maxPayload); Parsed(p.frames + q.frames, q.rest, q.error)
    decreases |a|
  {
    hide Receive, Parse;
    ParseByReceive(a, maxPayload);
    ParseByReceive(a + b, maxPayload);
    ReceiveExtends(a, b, maxPayload);
    var r := Receive(a, maxPayload);
    if r.Got? {
      ParseContinues(r.rest, b, maxPayload);
      var p := Parse(r.rest, maxPayload);
      if p.error.None? {
        var q := Parse(p.rest + b, maxPayload);
        assert [r.frame] + (p.frames + q.frames) == [r.frame] + p.frames + q.frames;
      }
    }
  }

  /** What is left unparsed without an error is less than one largest frame. */
  lemma {:induction false} RestIsIncomplete(stream: Bytes, maxPayload: u32)
    ensures var p := Parse(stream, maxPayload);
      p.error.None? ==> |p.rest| < HEADER_SIZE + maxPayload && Parse(p.rest, maxPayload) == Parsed([], p.rest, None)
    decreases |stream|
  {
    if |stream| < HEADER_SIZE {
      return;
    }
    match DecodeHeader(stream[..HEADER_SIZE], maxPayload)
    case Err(_) =>
    case Ok(h) =>
      HeaderCanonical(stream[..HEADER_SIZE], maxPayload);
      if HEADER_SIZE + h.payloadLength <= |stream| {
        RestIsIncomplete(stream[HEADER_SIZE + h.payloadLength..], maxPayload);
      }
  }
}
