/** 32-bit machine words as their bits, least significant first, with the operations CRC-32 uses. */
module Bits {
  import opened Words

  type Bitstring = seq<bool>

  /** A `uint32_t`: bit i of the word is element i. */
  type Word = w: seq<bool> | |w| == 32 witness seq(32, _ => false)

  function Fill(bit: bool, k: nat): (z: Bitstring)
    ensures |z| == k && forall i :: 0 <= i < k ==> z[i] == bit
  {
    seq(k, _ => bit)
  }

  function Zeros(k: nat): (z: Bitstring)
    ensures |z| == k && forall i :: 0 <= i < k ==> !z[i]
  {
    Fill(false, k)
  }

  function Xor(a: Bitstring, b: Bitstring): (r: Bitstring)
    requires |a| == |b|
    ensures |r| == |a|
  {
    seq(|a|, i requires 0 <= i < |a| => a[i] != b[i])
  }

  function And(a: Bitstring, b: Bitstring): (r: Bitstring)
    requires |a| == |b|
    ensures |r| == |a|
  {
    seq(|a|, i requires 0 <= i < |a| => a[i] && b[i])
  }

  /** Logical right shift of a word by k positions. */
  function ShiftRight(w: Word, k: nat): (r: Word)
    requires k <= 32
  {
    w[k..] + Zeros(k)
  }

  /** A short bit string as the low end of a word. */
  function Pad(w: Bitstring): (r: Word)
    requires |w| <= 32
  {
    w + Zeros(32 - |w|)
  }

  lemma XorCancel(a: Bitstring, b: Bitstring)
    requires |a| == |b|
    ensures Xor(Xor(a, b), b) == a && Xor(a, a) == Zeros(|a|) && Xor(a, Zeros(|a|)) == a
  {
  }

  lemma XorAssoc(a: Bitstring, b: Bitstring, c: Bitstring)
    requires |a| == |b| == |c|
    ensures Xor(Xor(a, b), c) == Xor(a, Xor(b, c))
    ensures Xor(a, b) == Xor(b, a)
  {
  }

  // ---------------------------------------------------------------------------

  function Pow2(k: nat): (r: nat)
    ensures r >= 1
  {
    if k == 0 then 1 else 2 * Pow2(k - 1)
  }

  function NatBits(n: nat, k: nat): (bits: Bitstring)
    ensures |bits| == k
  {
    if k == 0 then [] else [n % 2 == 1] + NatBits(n / 2, k - 1)
  }

  function BitsNat(bits: Bitstring): nat
  {
    if bits == [] then 0 else (if bits[0] then 1 else 0) + 2 * BitsNat(bits[1..])
  }

  lemma {:induction false} BitsNatBound(bits: Bitstring)
    ensures BitsNat(bits) < Pow2(|bits|)
  {
    if bits != [] {
      BitsNatBound(bits[1..]);
    }
  }

  lemma {:induction false} NatBitsInverse(n: nat, k: nat)
    requires n < Pow2(k)
    ensures BitsNat(NatBits(n, k)) == n
  {
    if k != 0 {
      NatBitsInverse(n / 2, k - 1);
      assert NatBits(n, k)[1..] == NatBits(n / 2, k - 1);
    }
  }

  lemma {:induction false} BitsNatInverse(bits: Bitstring)
    ensures NatBits(BitsNat(bits), |bits|) == bits
  {
    if bits != [] {
      BitsNatInverse(bits[1..]);
    }
  }

  lemma Pow2Literals()
    ensures Pow2(8) == 256 && Pow2(32) == U32_LIMIT
  {
    assert Pow2(2) == 0x4;
    assert Pow2(4) == 0x10;
    assert Pow2(6) == 0x40;
    assert Pow2(8) == 0x100;
    assert Pow2(10) == 0x400;
    assert Pow2(12) == 0x1000;
    assert Pow2(14) == 0x4000;
    assert Pow2(16) == 0x1_0000;
    assert Pow2(18) == 0x4_0000;
    assert Pow2(20) == 0x10_0000;
    assert Pow2(22) == 0x40_0000;
    assert Pow2(24) == 0x100_0000;
    assert Pow2(26) == 0x400_0000;
    assert Pow2(28) == 0x1000_0000;
    assert Pow2(30) == 0x4000_0000;
  }

  /** The integer a word denotes, and the word that denotes an integer. */
  function WordNat(w: Word): nat { BitsNat(w) }

  function NatWord(n: nat): Word { NatBits(n, 32) }

  /** The value of a word is a 32-bit integer that determines the word. */
  lemma WordRoundTrip(w: Word)
    ensures WordNat(w) < U32_LIMIT && NatWord(WordNat(w)) == w
  {
    BitsNatBound(w);
    BitsNatInverse(w);
    Pow2Literals();
  }
}
