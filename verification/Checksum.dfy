/**
 * CRC-32 as SyncWire computes it (src/common/crc32.cpp): bit-serial, reflected polynomial
 * 0xEDB88320, all-ones start, final complement.
 */
module Checksum {
  import opened Words
  import opened Bits
  import opened Register

  /** The reflected polynomial 0xEDB88320, least significant bit of each byte first. */
  const POLYNOMIAL: Generator :=
    [false, false, false, false, false, true, false, false] +
    [true, true, false, false, false, false, false, true] +
    [false, false, false, true, true, true, false, true] +
    [true, false, true, true, false, true, true, true]
  const ONES: Word := Fill(true, 32)
  const BYTE_BITS: nat := 8

  /** `x` moved up by k bits. */
  function Scale(x: nat, k: nat): nat
    decreases k
  {
    if k == 0 then x else 2 * Scale(x, k - 1)
  }

  lemma {:induction false} BitsNatAppend(a: Bitstring, b: Bitstring)
    ensures BitsNat(a + b) == BitsNat(a) + Scale(BitsNat(b), |a|)
  {
    if a == [] {
      assert a + b == b;
    } else {
      assert (a + b)[1..] == a[1..] + b;
      BitsNatAppend(a[1..], b);
    }
  }

  lemma PolynomialValue()
    ensures WordNat(POLYNOMIAL) == 0xEDB8_8320
  {
    var a: Bitstring := [false, false, false, false, false, true, false, false];
    var b: Bitstring := [true, true, false, false, false, false, false, true];
    var c: Bitstring := [false, false, false, true, true, true, false, true];
    var d: Bitstring := [true, false, true, true, false, true, true, true];
    assert POLYNOMIAL == a + (b + (c + d));
    BitsNatAppend(a, b + (c + d));
    BitsNatAppend(b, c + d);
    BitsNatAppend(c, d);
    LowByteValues();
    HighByteValues();
  }

  lemma LowByteValues()
    ensures BitsNat([false, false, false, false, false, true, false, false]) == 0x20
    ensures BitsNat([true, true, false, false, false, false, false, true]) == 0x83
  {
  }

  lemma HighByteValues()
    ensures BitsNat([false, false, false, true, true, true, false, true]) == 0xB8
    ensures BitsNat([true, false, true, true, false, true, true, true]) == 0xED
  {
  }

  /** A byte widened to a word. */
  function Lane(b: byte): (r: Word)
  {
    Pad(NatBits(b, BYTE_BITS))
  }

  function FeedByte(s: Word, b: byte): (r: Word)
  {
    ShiftBy(POLYNOMIAL, Xor(s, Lane(b)), BYTE_BITS)
  }

  /** The register after a whole message. */
  function Feed(s: Word, message: Bytes): (r: Word)
    decreases |message|
  {
    if message == [] then s else FeedByte(Feed(s, message[..|message| - 1]), message[|message| - 1])
  }

  function CrcWord(message: Bytes): (r: Word)
  {
    Xor(Feed(ONES, message), ONES)
  }

  /** The checksum of a message, as the unsigned 32-bit integer that goes on the wire. */
  function Crc(message: Bytes): (r: nat)
  {
    WordNat(CrcWord(message))
  }

  /** The running checksum object. */
  class Crc32 {
    var state: Word

    constructor ()
      ensures state == ONES
    {
      state := ONES;
    }

    method Update(bytes: Bytes)
      modifies this
      ensures state == Feed(old(state), bytes)
    {
      for i := 0 to |bytes|
        invariant state == Feed(old(state), bytes[..i])
      {
        ghost var before := state;
        state := Xor(state, Lane(bytes[i]));
        for bit := 0 to BYTE_BITS
          invariant ShiftBy(POLYNOMIAL, state, BYTE_BITS - bit) == FeedByte(before, bytes[i])
        {
          var mask := Fill(state[0], 32);
          MaskedStep(POLYNOMIAL, state, BYTE_BITS - bit);
          state := Xor(ShiftRight(state, 1), And(POLYNOMIAL, mask));
        }
        assert bytes[..i + 1][..i] == bytes[..i];
      }
      assert bytes[..|bytes|] == bytes;
    }

    method Value() returns (value: nat)
      ensures value == WordNat(Xor(state, ONES))
    {
      value := WordNat(Xor(state, ONES));
    }
  }

  /** The branch-free form with an all-ones or all-zeros mask is the division step. */
  lemma MaskedStep(p: Generator, s: Word, k: nat)
    requires 0 < k
    ensures ShiftBy(p, Xor(ShiftRight(s, 1), And(p, Fill(s[0], 32))), k - 1) == ShiftBy(p, s, k)
  {
    assert Xor(ShiftRight(s, 1), And(p, Fill(s[0], 32))) == Shift(p, s);
  }

  /** `crc32(bytes)`: the one-call form. */
  method Compute(bytes: Bytes) returns (value: nat)
    ensures value == Crc(bytes)
  {
    var checksum := new Crc32();
    checksum.Update(bytes);
    value := checksum.Value();
  }

  // ---------------------------------------------------------------------------
  // Streaming.
  // ---------------------------------------------------------------------------

  /** Feeding in pieces is feeding the concatenation. */
  lemma {:induction false} FeedAppend(s: Word, a: Bytes, b: Bytes)
    ensures Feed(s, a + b) == Feed(Feed(s, a), b)
    decreases |b|
  {
    if b == [] {
      assert a + b == a;
    } else {
      assert (a + b)[..|a + b| - 1] == a + b[..|b| - 1];
      FeedAppend(s, a, b[..|b| - 1]);
    }
  }

  /** Equal checksums mean equal registers, so a resumed computation continues exactly. */
  lemma EqualCrcEqualRegister(a: Bytes, b: Bytes)
    requires Crc(a) == Crc(b)
    ensures Feed(ONES, a) == Feed(ONES, b)
  {
    WordRoundTrip(CrcWord(a));
    WordRoundTrip(CrcWord(b));
    XorCancel(Feed(ONES, a), ONES);
    XorCancel(Feed(ONES, b), ONES);
  }

  lemma CrcRange(a: Bytes)
    ensures Crc(a) < U32_LIMIT
  {
    WordRoundTrip(CrcWord(a));
  }

  lemma {:induction false} ZeroBits(k: nat)
    ensures BitsNat(Zeros(k)) == 0
  {
    if k != 0 {
      assert Zeros(k)[1..] == Zeros(k - 1);
      ZeroBits(k - 1);
    }
  }

  /** The checksum of nothing is zero, which is what a fresh transfer offers. */
  lemma CrcOfNothing()
    ensures Crc([]) == 0
  {
    XorCancel(ONES, ONES);
    ZeroBits(32);
  }

  // ---------------------------------------------------------------------------
  // The message as a bit string, least significant bit of each byte first.
  // ---------------------------------------------------------------------------

  function MessageBits(message: Bytes): (bits: Bitstring)
    ensures |bits| == BYTE_BITS * |message|
    decreases |message|
  {
    if message == [] then [] else
      MessageBits(message[..|message| - 1]) + NatBits(message[|message| - 1], BYTE_BITS)
  }

  lemma {:induction false} FeedIsFeedBits(s: Word, message: Bytes)
    ensures Feed(s, message) == FeedBits(POLYNOMIAL, s, MessageBits(message))
    decreases |message|
  {
    if message != [] {
      var front, last := message[..|message| - 1], message[|message| - 1];
      FeedIsFeedBits(s, front);
      FeedBitsAppend(POLYNOMIAL, s, MessageBits(front), NatBits(last, BYTE_BITS));
      FeedBitsAtOnce(POLYNOMIAL, Feed(s, front), NatBits(last, BYTE_BITS));
    }
  }

  lemma {:induction false} MessageBitsAppend(a: Bytes, b: Bytes)
    ensures MessageBits(a + b) == MessageBits(a) + MessageBits(b)
    decreases |b|
  {
    if b == [] {
      assert a + b == a;
    } else {
      assert (a + b)[..|a + b| - 1] == a + b[..|b| - 1];
      MessageBitsAppend(a, b[..|b| - 1]);
    }
  }

  lemma {:induction false} MessageBitsInjective(a: Bytes, b: Bytes)
    requires MessageBits(a) == MessageBits(b)
    ensures a == b
    decreases |a|
  {
    hide NatBits, BitsNat, Pow2;
    if a != [] {
      var k := |a| - 1;
      assert MessageBits(a)[..BYTE_BITS * k] == MessageBits(a[..k]);
      assert MessageBits(b)[..BYTE_BITS * k] == MessageBits(b[..k]);
      MessageBitsInjective(a[..k], b[..k]);
      assert NatBits(a[k], BYTE_BITS) == MessageBits(a)[BYTE_BITS * k..] == NatBits(b[k], BYTE_BITS);
      Pow2Literals();
      NatBitsInverse(a[k], BYTE_BITS);
      NatBitsInverse(b[k], BYTE_BITS);
    }
  }

  // ---------------------------------------------------------------------------
  // Error detection.
  // ---------------------------------------------------------------------------

  /**
   * Messages of any length whose bits differ only inside some 32 consecutive positions have
   * equal checksums exactly when they are equal.
   */
  lemma BurstErrorsDetected(a: Bytes, b: Bytes, start: nat)
    requires AgreeOutsideBurst(MessageBits(a), MessageBits(b), start)
    ensures Crc(a) == Crc(b) <==> a == b
  {
    if Crc(a) == Crc(b) {
      EqualCrcEqualRegister(a, b);
      FeedIsFeedBits(ONES, a);
      FeedIsFeedBits(ONES, b);
      BurstInjective(POLYNOMIAL, ONES, MessageBits(a), MessageBits(b), start);
      MessageBitsInjective(a, b);
    }
  }

  /** `a` and `b` agree at every byte outside the four that start at `start`. */
  ghost predicate AgreeOutsideWindow(a: Bytes, b: Bytes, start: nat)
  {
    && |a| == |b|
    && forall i :: 0 <= i < |a| && !(start <= i < start + 4) ==> a[i] == b[i]
  }

  /** The byte-aligned case: damage confined to four consecutive bytes never goes unnoticed. */
  lemma WindowErrorsDetected(a: Bytes, b: Bytes, start: nat)
    requires AgreeOutsideWindow(a, b, start)
    ensures Crc(a) == Crc(b) <==> a == b
  {
    forall i | 0 <= i < |MessageBits(a)| && !(BYTE_BITS * start <= i < BYTE_BITS * start + 32)
      ensures MessageBits(a)[i] == MessageBits(b)[i]
    {
      MessageBitAt(a, i);
      MessageBitAt(b, i);
      assert a[i / BYTE_BITS] == b[i / BYTE_BITS];
    }
    BurstErrorsDetected(a, b, BYTE_BITS * start);
  }

  lemma {:induction false} MessageBitAt(a: Bytes, i: nat)
    requires i < BYTE_BITS * |a|
    ensures i / BYTE_BITS < |a|
    ensures MessageBits(a)[i] == NatBits(a[i / BYTE_BITS], BYTE_BITS)[i % BYTE_BITS]
    decreases |a|
  {
    var k := |a| - 1;
    if i < BYTE_BITS * k {
      MessageBitAt(a[..k], i);
    } else {
      assert i / BYTE_BITS == k && i % BYTE_BITS == i - BYTE_BITS * k;
    }
  }

  // ---------------------------------------------------------------------------
  // The table-driven form of section 8 of RFC 1952.
  // ---------------------------------------------------------------------------

  function TableEntry(n: byte): (r: Word)
  {
    ShiftBy(POLYNOMIAL, Lane(n), BYTE_BITS)
  }

  /** The byte a word's low eight bits denote. */
  function LowByte(x: Word): (n: byte)
  {
    BitsNatBound(x[..BYTE_BITS]);
    Pow2Literals();
    BitsNat(x[..BYTE_BITS])
  }

  function TableFeed(s: Word, message: Bytes): (r: Word)
    decreases |message|
  {
    if message == [] then s else
      var t := TableFeed(s, message[..|message| - 1]);
      Xor(TableEntry(LowByte(Xor(t, Lane(message[|message| - 1])))), ShiftRight(t, BYTE_BITS))
  }

  lemma TableStep(s: Word, b: byte)
    ensures FeedByte(s, b) == Xor(TableEntry(LowByte(Xor(s, Lane(b)))), ShiftRight(s, BYTE_BITS))
  {
    var x: Word := Xor(s, Lane(b));
    TableSplit(POLYNOMIAL, x, BYTE_BITS);
    BitsNatInverse(x[..BYTE_BITS]);
    assert ShiftRight(x, BYTE_BITS) == ShiftRight(s, BYTE_BITS);
  }

  /** The bit-serial register and the table-driven one agree on every message. */
  lemma {:induction false} FeedIsTableFeed(s: Word, message: Bytes)
    ensures Feed(s, message) == TableFeed(s, message)
    decreases |message|
  {
    if message != [] {
      FeedIsTableFeed(s, message[..|message| - 1]);
      TableStep(Feed(s, message[..|message| - 1]), message[|message| - 1]);
    }
  }

  // ---------------------------------------------------------------------------
  // Exclusive or of messages.
  // ---------------------------------------------------------------------------

  /** The message with the given bits. */
  function BitsMessage(bits: Bitstring): (m: Bytes)
    requires |bits| % BYTE_BITS == 0
    ensures |bits| == BYTE_BITS * |m|
    decreases |bits|
  {
    if bits == [] then [] else
      var k := |bits| - BYTE_BITS;
      BitsNatBound(bits[k..]);
      Pow2Literals();
      BitsMessage(bits[..k]) + [BitsNat(bits[k..])]
  }

  lemma {:induction false} BitsMessageInverse(bits: Bitstring)
    requires |bits| % BYTE_BITS == 0
    ensures MessageBits(BitsMessage(bits)) == bits
    decreases |bits|
  {
    if bits != [] {
      var k := |bits| - BYTE_BITS;
      BitsMessageInverse(bits[..k]);
      BitsNatInverse(bits[k..]);
      assert bits == bits[..k] + bits[k..];
    }
  }

  function XorBytes(a: Bytes, b: Bytes): (m: Bytes)
    requires |a| == |b|
    ensures |m| == |a|
  {
    BitsMessage(Xor(MessageBits(a), MessageBits(b)))
  }

  /** The register is linear, so the checksum is affine under exclusive or. */
  lemma FeedLinear(s: Word, t: Word, a: Bytes, b: Bytes)
    requires |a| == |b|
    ensures Feed(Xor(s, t), XorBytes(a, b)) == Xor(Feed(s, a), Feed(t, b))
  {
    hide Feed, FeedBits, MessageBits, BitsMessage, Xor;
    FeedIsFeedBits(s, a);
    FeedIsFeedBits(t, b);
    FeedIsFeedBits(Xor(s, t), XorBytes(a, b));
    BitsMessageInverse(Xor(MessageBits(a), MessageBits(b)));
    FeedBitsLinear(POLYNOMIAL, s, t, MessageBits(a), MessageBits(b));
  }

  lemma CrcAffine(a: Bytes, b: Bytes, c: Bytes)
    requires |a| == |b| == |c|
    ensures CrcWord(XorBytes(XorBytes(a, b), c)) == Xor(Xor(CrcWord(a), CrcWord(b)), CrcWord(c))
  {
    FeedLinear(ONES, ONES, a, b);
    FeedLinear(Xor(ONES, ONES), ONES, XorBytes(a, b), c);
    assert Xor(Xor(ONES, ONES), ONES) == ONES;
    var x, y, z := Feed(ONES, a), Feed(ONES, b), Feed(ONES, c);
    assert Xor(Xor(Xor(x, y), z), ONES) == Xor(Xor(Xor(x, ONES), Xor(y, ONES)), Xor(z, ONES));
  }

  /** An error that the register does not notice, of any length from five bytes up. */
  lemma SilentError(n: nat) returns (error: Bytes)
    requires 5 <= n
    ensures |error| == n && MessageBits(error)[0] && Feed(Zeros(32), error) == Zeros(32)
  {
    var pattern: Bitstring := [true] + POLYNOMIAL + Zeros(BYTE_BITS * n - 33);
    error := BitsMessage(pattern);
    BitsMessageInverse(pattern);
    PatternVanishes(POLYNOMIAL, BYTE_BITS * n - 33);
    FeedIsFeedBits(Zeros(32), error);
  }

  /**
   * Equal size and checksum do not mean equal bytes: every message of at least five bytes
   * shares both with another one.
   */
  lemma CollisionExists(a: Bytes) returns (b: Bytes)
    requires 5 <= |a|
    ensures |b| == |a| && b != a && Crc(b) == Crc(a)
  {
    hide Feed, MessageBits, BitsMessage, WordNat;
    var error := SilentError(|a|);
    FeedLinear(ONES, Zeros(32), a, error);
    XorCancel(ONES, ONES);
    XorCancel(Feed(ONES, a), ONES);
    b := XorBytes(a, error);
    var difference := Xor(MessageBits(a), MessageBits(error));
    BitsMessageInverse(difference);
    assert MessageBits(b)[0] == difference[0] == (MessageBits(a)[0] != MessageBits(error)[0]);
  }
}
