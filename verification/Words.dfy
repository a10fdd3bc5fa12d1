/** Bytes, machine words and the big-endian integer fields every SyncWire payload is built from. */
module Words {

  type byte = x: int | 0 <= x < 256
  type Bytes = seq<byte>

  type u16 = x: int | 0 <= x < 0x1_0000
  type u32 = x: int | 0 <= x < 0x1_0000_0000
  type u64 = x: int | 0 <= x < 0x1_0000_0000_0000_0000

  const U16_LIMIT: nat := 0x1_0000
  const U32_LIMIT: nat := 0x1_0000_0000
  const U64_LIMIT: nat := 0x1_0000_0000_0000_0000

  datatype Option<+T> = None | Some(value: T)

  datatype Result<+T, +E> = Ok(value: T) | Err(error: E)

  function Pow256(k: nat): (r: nat)
    ensures r >= 1
  {
    if k == 0 then 1 else 256 * Pow256(k - 1)
  }

  /** The `width`-byte big-endian field that holds `v`; higher bits are cut off, as a narrowing cast does. */
  function PutUint(v: nat, width: nat): (field: Bytes)
    ensures |field| == width
  {
    if width == 0 then [] else PutUint(v / 256, width - 1) + [v % 256]
  }

  /** The unsigned integer a big-endian field denotes. */
  function GetUint(field: Bytes): (v: nat)
  {
    if field == [] then 0 else GetUint(field[..|field| - 1]) * 256 + field[|field| - 1]
  }

  /** `v >> 8 * k`. */
  function DropBytes(v: nat, k: nat): nat
  {
    if k == 0 then v else DropBytes(v / 256, k - 1)
  }

  lemma {:induction false} PutUintAt(v: nat, width: nat, i: nat)
    requires i < width
    ensures PutUint(v, width)[i] == DropBytes(v, width - 1 - i) % 256
  {
    if i != width - 1 {
      PutUintAt(v / 256, width - 1, i);
    }
  }

  /** Writes a big-endian field into a buffer in place, most significant byte first. */
  method PutField(out: array<byte>, offset: nat, value: nat, width: nat)
    requires offset + width <= out.Length
    modifies out
    ensures out[offset..offset + width] == PutUint(value, width)
    ensures forall i :: 0 <= i < out.Length && !(offset <= i < offset + width) ==> out[i] == old(out[i])
  {
    for index := 0 to width
      invariant forall i :: 0 <= i < out.Length && !(offset <= i < offset + index) ==> out[i] == old(out[i])
      invariant forall i :: 0 <= i < index ==> out[offset + i] == PutUint(value, width)[i]
    {
      PutUintAt(value, width, index);
      out[offset + index] := DropBytes(value, width - 1 - index) % 256;
    }
  }

  /** Reads a big-endian field by accumulating its bytes. */
  method GetField(bytes: Bytes, offset: nat, width: nat) returns (value: nat)
    requires offset + width <= |bytes|
    ensures value == GetUint(bytes[offset..offset + width])
  {
    value := 0;
    for index := 0 to width
      invariant value == GetUint(bytes[offset..offset + index])
    {
      value := value * 256 + bytes[offset + index];
      var field := bytes[offset..offset + index + 1];
      assert field[..index] == bytes[offset..offset + index];
    }
  }

  lemma {:induction false} GetBound(field: Bytes)
    ensures GetUint(field) < Pow256(|field|)
  {
    if field != [] {
      GetBound(field[..|field| - 1]);
    }
  }

  /** A field that is wide enough gives back the number written into it. */
  lemma {:induction false} GetAfterPut(v: nat, width: nat)
    requires v < Pow256(width)
    ensures GetUint(PutUint(v, width)) == v
  {
    if width != 0 {
      GetAfterPut(v / 256, width - 1);
      assert PutUint(v, width)[..width - 1] == PutUint(v / 256, width - 1);
    }
  }

  /** Every field is the encoding of the number it denotes, so no number has two encodings. */
  lemma {:induction false} PutAfterGet(field: Bytes)
    ensures PutUint(GetUint(field), |field|) == field
  {
    if field != [] {
      PutAfterGet(field[..|field| - 1]);
    }
  }

  lemma Widths()
    ensures Pow256(2) == U16_LIMIT && Pow256(4) == U32_LIMIT && Pow256(8) == U64_LIMIT
  {
    assert Pow256(1) == 256;
    assert Pow256(3) == 0x100_0000;
    assert Pow256(4) == U32_LIMIT;
    assert Pow256(5) == 0x100_0000_0000;
    assert Pow256(6) == 0x1_0000_0000_0000;
    assert Pow256(7) == 0x100_0000_0000_0000;
  }
}
