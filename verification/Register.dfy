/**
 * The shift register behind a reflected CRC, for any 32-bit generator whose top bit is set
 * (the constant term of the polynomial). Nothing here depends on which generator it is.
 */
module Register {
  import opened Bits

  type Generator = p: Word | p[31] witness Fill(true, 32)

  /** One division step: shift out the low bit and subtract the generator when that bit was set. */
  function Shift(p: Generator, s: Word): (r: Word)
  {
    if s[0] then Xor(ShiftRight(s, 1), p) else ShiftRight(s, 1)
  }

  function ShiftBy(p: Generator, s: Word, k: nat): (r: Word)
    decreases k, |s|
  {
    if k == 0 then s else ShiftBy(p, Shift(p, s), k - 1)
  }

  /** The register after taking in one message bit, and after a string of them. */
  function FeedBit(p: Generator, s: Word, bit: bool): (r: Word)
  {
    Shift(p, Xor(s, Pad([bit])))
  }

  function FeedBits(p: Generator, s: Word, bits: Bitstring): (r: Word)
    decreases |bits|
  {
    if bits == [] then s else FeedBits(p, FeedBit(p, s, bits[0]), bits[1..])
  }

  /** Feeding in pieces is feeding the concatenation. */
  lemma {:induction false} FeedBitsAppend(p: Generator, s: Word, a: Bitstring, b: Bitstring)
    ensures FeedBits(p, s, a + b) == FeedBits(p, FeedBits(p, s, a), b)
    decreases |a|
  {
    if a == [] {
      assert a + b == b;
    } else {
      assert (a + b)[1..] == a[1..] + b;
      FeedBitsAppend(p, FeedBit(p, s, a[0]), a[1..], b);
    }
  }

  lemma ShiftLinear(p: Generator, a: Word, b: Word)
    ensures Shift(p, Xor(a, b)) == Xor(Shift(p, a), Shift(p, b))
  {
  }

  /** The generator's top bit records which branch was taken, so no two registers meet. */
  lemma ShiftInjective(p: Generator, a: Word, b: Word)
    requires Shift(p, a) == Shift(p, b)
    ensures a == b
  {
    assert Shift(p, a)[31] == a[0];
    assert Shift(p, b)[31] == b[0];
    forall i | 0 < i < 32
      ensures a[i] == b[i]
    {
      assert Shift(p, a)[i - 1] == (a[i] != (a[0] && p[i - 1]));
      assert Shift(p, b)[i - 1] == (b[i] != (b[0] && p[i - 1]));
    }
  }

  lemma {:induction false} ShiftByInjective(p: Generator, a: Word, b: Word, k: nat)
    requires ShiftBy(p, a, k) == ShiftBy(p, b, k)
    ensures a == b
    decreases k
  {
    if k != 0 {
      ShiftByInjective(p, Shift(p, a), Shift(p, b), k - 1);
      ShiftInjective(p, a, b);
    }
  }

  /** Feeding equal bits keeps different registers different. */
  lemma {:induction false} FeedBitsInjective(p: Generator, a: Word, b: Word, bits: Bitstring)
    requires FeedBits(p, a, bits) == FeedBits(p, b, bits)
    ensures a == b
    decreases |bits|
  {
    if bits != [] {
      FeedBitsInjective(p, FeedBit(p, a, bits[0]), FeedBit(p, b, bits[0]), bits[1..]);
      ShiftInjective(p, Xor(a, Pad([bits[0]])), Xor(b, Pad([bits[0]])));
      XorCancel(a, Pad([bits[0]]));
      XorCancel(b, Pad([bits[0]]));
    }
  }

  lemma {:induction false} FeedBitsLinear(p: Generator, s: Word, t: Word, a: Bitstring, b: Bitstring)
    requires |a| == |b|
    ensures FeedBits(p, Xor(s, t), Xor(a, b)) == Xor(FeedBits(p, s, a), FeedBits(p, t, b))
    decreases |a|
  {
    if a != [] {
      assert Xor(a, b)[1..] == Xor(a[1..], b[1..]);
      var x, y := Pad([a[0]]), Pad([b[0]]);
      assert Xor(Xor(s, t), Pad([Xor(a, b)[0]])) == Xor(Xor(s, x), Xor(t, y));
      ShiftLinear(p, Xor(s, x), Xor(t, y));
      FeedBitsLinear(p, FeedBit(p, s, a[0]), FeedBit(p, t, b[0]), a[1..], b[1..]);
    }
  }

  /** Up to 32 message bits can be added to the register first and shifted through afterwards. */
  lemma {:induction false} FeedBitsAtOnce(p: Generator, s: Word, w: Bitstring)
    requires |w| <= 32
    ensures FeedBits(p, s, w) == ShiftBy(p, Xor(s, Pad(w)), |w|)
    decreases |w|
  {
    hide Shift, FeedBit;
    if w == [] {
      assert Pad(w) == Zeros(32);
      XorCancel(s, s);
    } else {
      FeedBitsAtOnce(p, FeedBit(p, s, w[0]), w[1..]);
      ShiftPeel(p, s, w);
    }
  }

  lemma ShiftPeel(p: Generator, s: Word, w: Bitstring)
    requires 0 < |w| <= 32
    ensures Shift(p, Xor(s, Pad(w))) == Xor(FeedBit(p, s, w[0]), Pad(w[1..]))
  {
    var x, y := Xor(s, Pad(w)), Xor(s, Pad([w[0]]));
    assert x[0] == y[0];
    forall i | 0 <= i < 31
      ensures x[i + 1] == (y[i + 1] != Pad(w[1..])[i])
    {
    }
    assert !Pad(w[1..])[31];
  }

  /**
   * Burst errors: two bit strings that agree outside a window of at most 32 consecutive bits
   * lead to the same register exactly when they agree inside it too, whatever surrounds it.
   */
  lemma BurstDetected(p: Generator, s: Word, before: Bitstring, v: Bitstring, w: Bitstring, after: Bitstring)
    requires |v| == |w| <= 32
    ensures FeedBits(p, s, before + v + after) == FeedBits(p, s, before + w + after) <==> v == w
  {
    var t := FeedBits(p, s, before);
    FeedBitsAppend(p, s, before + v, after);
    FeedBitsAppend(p, s, before + w, after);
    FeedBitsAppend(p, s, before, v);
    FeedBitsAppend(p, s, before, w);
    if FeedBits(p, FeedBits(p, t, v), after) == FeedBits(p, FeedBits(p, t, w), after) {
      FeedBitsInjective(p, FeedBits(p, t, v), FeedBits(p, t, w), after);
      WindowInjective(p, t, v, w);
    }
  }

  lemma WindowInjective(p: Generator, t: Word, v: Bitstring, w: Bitstring)
    requires |v| == |w| <= 32
    requires FeedBits(p, t, v) == FeedBits(p, t, w)
    ensures v == w
  {
    FeedBitsAtOnce(p, t, v);
    FeedBitsAtOnce(p, t, w);
    ShiftByInjective(p, Xor(t, Pad(v)), Xor(t, Pad(w)), |v|);
    XorAssoc(t, Pad(v), t);
    XorAssoc(t, Pad(w), t);
    XorCancel(Pad(v), t);
    XorCancel(Pad(w), t);
    assert v == Pad(v)[..|v|] && w == Pad(w)[..|w|];
  }

  /** `a` and `b` agree at every bit outside the 32 that start at `start`. */
  ghost predicate AgreeOutsideBurst(a: Bitstring, b: Bitstring, start: nat)
  {
    && |a| == |b|
    && forall i :: 0 <= i < |a| && !(start <= i < start + 32) ==> a[i] == b[i]
  }

  lemma BurstInjective(p: Generator, s: Word, a: Bitstring, b: Bitstring, start: nat)
    requires AgreeOutsideBurst(a, b, start)
    requires FeedBits(p, s, a) == FeedBits(p, s, b)
    ensures a == b
  {
    hide FeedBits;
    var from := if start <= |a| then start else |a|;
    var to := if start + 32 <= |a| then start + 32 else |a|;
    assert a == a[..from] + a[from..to] + a[to..];
    assert b == a[..from] + b[from..to] + a[to..];
    BurstDetected(p, s, a[..from], a[from..to], b[from..to], a[to..]);
  }

  /** The low k bits can be divided on their own; the rest only moves down. */
  lemma TableSplit(p: Generator, x: Word, k: nat)
    requires k <= 32
    ensures ShiftBy(p, x, k) == Xor(ShiftBy(p, Pad(x[..k]), k), ShiftRight(x, k))
  {
    var high: Word := Zeros(k) + x[k..];
    assert x == Xor(Pad(x[..k]), high);
    ShiftByLinear(p, Pad(x[..k]), high, k);
    ShiftByZeros(p, high, k);
    assert ShiftRight(high, k) == ShiftRight(x, k);
  }

  lemma {:induction false} ShiftByLinear(p: Generator, a: Word, b: Word, k: nat)
    ensures ShiftBy(p, Xor(a, b), k) == Xor(ShiftBy(p, a, k), ShiftBy(p, b, k))
    decreases k
  {
    if k != 0 {
      ShiftLinear(p, a, b);
      ShiftByLinear(p, Shift(p, a), Shift(p, b), k - 1);
    }
  }

  lemma {:induction false} ShiftByZeros(p: Generator, w: Word, k: nat)
    requires k <= 32 && forall i :: 0 <= i < k ==> !w[i]
    ensures ShiftBy(p, w, k) == ShiftRight(w, k)
    decreases k
  {
    if k == 0 {
      assert ShiftRight(w, 0) == w;
    } else {
      var next := ShiftRight(w, 1);
      assert Shift(p, w) == next;
      forall i | 0 <= i < k - 1
        ensures !next[i]
      {
        assert next[i] == w[i + 1];
      }
      ShiftByZeros(p, next, k - 1);
      assert ShiftRight(next, k - 1) == ShiftRight(w, k);
    }
  }

  /**
   * The bound of 32 is sharp: a 33-bit pattern, followed by any number of zeros, takes the
   * empty register back to empty.
   */
  lemma PatternVanishes(p: Generator, zeros: nat)
    ensures FeedBits(p, Zeros(32), [true] + p + Zeros(zeros)) == Zeros(32)
  {
    FeedBitsAppend(p, Zeros(32), [true] + p, Zeros(zeros));
    assert ([true] + p)[1..] == p;
    var one := Pad([true]);
    assert Xor(Zeros(32), one) == one;
    assert Shift(p, one) == p;
    FeedBitsAtOnce(p, p, p);
    assert Pad(p) == p;
    XorCancel(p, p);
    ZerosStay(p, 32);
    ZeroBitsStay(p, zeros);
  }

  lemma {:induction false} ZerosStay(p: Generator, k: nat)
    ensures ShiftBy(p, Zeros(32), k) == Zeros(32)
  {
    if k != 0 {
      assert Shift(p, Zeros(32)) == Zeros(32);
      ZerosStay(p, k - 1);
    }
  }

  lemma {:induction false} ZeroBitsStay(p: Generator, k: nat)
    ensures FeedBits(p, Zeros(32), Zeros(k)) == Zeros(32)
  {
    if k != 0 {
      assert Xor(Zeros(32), Pad([false])) == Zeros(32);
      assert Shift(p, Zeros(32)) == Zeros(32);
      assert Zeros(k)[1..] == Zeros(k - 1);
      ZeroBitsStay(p, k - 1);
    }
  }
}
