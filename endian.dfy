/**
 * The little-endian codec the session uses for the 64-bit numbers it keeps
 * in its store (the cache format version and the transaction-id counter):
 * byte `i` of a value is `(v >> 8i) & 0xFF`, and reading ors each byte back
 * in at bit `8i`.
 */
module Endian {
  import opened Hashing

  type Byte = x: int | 0 <= x < 256

  /** `sizeof(uint64_t)` */
  const WordSize: nat := 8

  /** 256 to the power `n`, the number of values `n` bytes hold. */
  function Pow256(n: nat): nat {
    if n == 0 then 1 else 256 * Pow256(n - 1)
  }

  /** Eight bytes hold exactly the 64-bit numbers. */
  lemma WordRange()
    ensures Pow256(WordSize) == Modulus
  {
    assert Pow256(2) == 0x1_0000;
    assert Pow256(4) == 256 * 256 * Pow256(2);
    assert Pow256(6) == 256 * 256 * Pow256(4);
    assert Pow256(8) == 256 * 256 * Pow256(6);
  }

  /** The bytes `to_little_endian` writes for `v` into `size` bytes. */
  function LittleEndian(v: nat, size: nat): (r: seq<Byte>)
  {
    seq(size, i requires 0 <= i < size => Shr(v, 8 * i) % 256)
  }

  /**
   * The number `from_little_endian` reads: byte `i` shifted left by `8i`.
   * The bound says the bytes never overlap, so or-ing them in is adding them.
   */
  function FromLittleEndian(bytes: seq<Byte>): (r: nat)
    ensures r < Pow256(|bytes|)
  {
    if bytes == [] then 0
    else
      var n := |bytes| - 1;
      var low := FromLittleEndian(bytes[..n]);
      ByteShifted(bytes[n], Pow256(n));
      low + bytes[n] * Pow256(n)
  }

  lemma ByteShifted(b: Byte, p: nat)
    ensures b * p <= 255 * p
  {
    assert (255 - b) * p >= 0;
  }

  /** `to_little_endian(v, x)` for a `size`-byte integer type. */
  method ToLittleEndian(v: nat, x: array<Byte>, size: nat)
    requires size <= x.Length
    modifies x
    ensures x[..size] == LittleEndian(v, size)
    ensures x[size..] == old(x[size..])
  {
    for i := 0 to size
      invariant x[..i] == LittleEndian(v, size)[..i]
      invariant x[size..] == old(x[size..])
    {
      x[i] := Shr(v, 8 * i) % 256;
    }
  }

  /** `from_little_endian(x)` for a `size`-byte integer type. */
  method ReadLittleEndian(x: seq<Byte>, size: nat) returns (result: nat)
    requires size <= |x|
    ensures result == FromLittleEndian(x[..size])
  {
    result := 0;
    var i := 0;
    while i < size
      invariant i <= size
      invariant result == FromLittleEndian(x[..i])
    {
      assert x[..i + 1][..i] == x[..i];
      result := result + x[i] * Pow256(i);
      i := i + 1;
    }
  }

  // --- round trips ---------------------------------------------------------

  /** Shifting right by one byte is dividing by 256. */
  lemma ShrByte(a: nat)
    ensures Shr(a, 8) == a / 256
  {
    calc {
      Shr(a, 8);
      Shr(a / 2, 7);
      Shr(a / 4, 6);
      Shr(a / 8, 5);
      Shr(a / 16, 4);
      Shr(a / 32, 3);
      Shr(a / 64, 2);
      Shr(a / 128, 1);
      Shr(a / 256, 0);
    }
  }

  /** The first byte written is the low byte; the rest encode the value shifted by a byte. */
  lemma LittleEndianFront(v: nat, size: nat)
    requires size > 0
    ensures LittleEndian(v, size) == [v % 256] + LittleEndian(v / 256, size - 1)
  {
    var a := LittleEndian(v, size);
    var b := [v % 256] + LittleEndian(v / 256, size - 1);
    forall i | 1 <= i < size
      ensures a[i] == b[i]
    {
      ShrAdd(v, 8, 8 * (i - 1));
      ShrByte(v);
    }
    assert a[0] == b[0];
  }

  /** Reading the bytes from the low end: the first byte plus 256 times the value of the rest. */
  lemma {:induction false} FromLittleEndianFront(bytes: seq<Byte>)
    requires bytes != []
    ensures FromLittleEndian(bytes) == bytes[0] + 256 * FromLittleEndian(bytes[1..])
    decreases |bytes|
  {
    var n := |bytes| - 1;
    if n == 0 {
      assert bytes[..0] == [] && bytes[1..] == [];
    } else {
      FromLittleEndianFront(bytes[..n]);
      assert bytes[..n][1..] == bytes[1..][..n - 1];
      assert bytes[..n][0] == bytes[0];
      var rest := bytes[1..];
      assert rest[n - 1] == bytes[n];
      assert bytes[n] * Pow256(n) == 256 * (bytes[n] * Pow256(n - 1));
    }
  }

  /** Every value that fits in `size` bytes is read back from what was written for it. */
  lemma {:induction false} FromToLittleEndian(v: nat, size: nat)
    requires v < Pow256(size)
    ensures FromLittleEndian(LittleEndian(v, size)) == v
    decreases size
  {
    if size == 0 {
      assert LittleEndian(v, size) == [];
    } else {
      LittleEndianFront(v, size);
      var bytes := LittleEndian(v, size);
      assert bytes[1..] == LittleEndian(v / 256, size - 1);
      FromToLittleEndian(v / 256, size - 1);
      FromLittleEndianFront(bytes);
    }
  }

  /** Every byte string is what is written for the value read from it. */
  lemma {:induction false} ToFromLittleEndian(bytes: seq<Byte>)
    ensures LittleEndian(FromLittleEndian(bytes), |bytes|) == bytes
    decreases |bytes|
  {
    if bytes != [] {
      var v := FromLittleEndian(bytes);
      FromLittleEndianFront(bytes);
      assert v % 256 == bytes[0] && v / 256 == FromLittleEndian(bytes[1..]);
      LittleEndianFront(v, |bytes|);
      ToFromLittleEndian(bytes[1..]);
    }
  }
}
