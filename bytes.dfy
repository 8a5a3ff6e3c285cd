/** Byte strings and the fixed-width integer encodings the key blobs use. */
module Bytes {

  type byte = x: int | 0 <= x < 256
  type uint16 = x: int | 0 <= x < 0x1_0000
  type uint32 = x: int | 0 <= x < 0x1_0000_0000

  const Two63: nat := 0x8000_0000_0000_0000
  const Two64: nat := 0x1_0000_0000_0000_0000

  function Pow256(k: nat): (r: nat)
    ensures r >= 1
  {
    if k == 0 then 1 else 256 * Pow256(k - 1)
  }

  lemma Pow256Eight()
    ensures Pow256(8) == Two64
  {
  }

  /** The unsigned value of `s` read most significant byte first
      (big.Int.SetBytes, binary.BigEndian). */
  function BigEndian(s: seq<byte>): (r: nat)
    ensures r < Pow256(|s|)
  {
    if s == [] then 0
    else
      var high := BigEndian(s[..|s| - 1]);
      assert high <= Pow256(|s| - 1) - 1;
      high * 256 + s[|s| - 1]
  }

  /** The `k`-byte big-endian encoding of `n`. */
  function ToBigEndian(n: nat, k: nat): (s: seq<byte>)
    requires n < Pow256(k)
    ensures |s| == k && BigEndian(s) == n
  {
    if k == 0 then []
    else
      var high := ToBigEndian(n / 256, k - 1);
      var s := high + [n % 256];
      assert s[..|s| - 1] == high;
      s
  }

  lemma {:induction false} BigEndianAppend(a: seq<byte>, b: seq<byte>)
    ensures BigEndian(a + b) == BigEndian(a) * Pow256(|b|) + BigEndian(b)
    decreases |b|
  {
    if b == [] {
      assert a + b == a;
    } else {
      var b' := b[..|b| - 1];
      assert (a + b)[..|a + b| - 1] == a + b';
      BigEndianAppend(a, b');
      var x, p, y, last := BigEndian(a), Pow256(|b'|), BigEndian(b'), b[|b| - 1];
      assert b[..|b| - 1] == b';
      assert BigEndian(a + b) == (x * p + y) * 256 + last;
      assert (x * p + y) * 256 == x * (p * 256) + y * 256 by {
        MulDistributes(x, p, y);
      }
    }
  }

  lemma MulDistributes(x: nat, p: nat, y: nat)
    ensures (x * p + y) * 256 == x * (p * 256) + y * 256
  {
  }

  ghost predicate AllZero(z: seq<byte>) {
    forall i :: 0 <= i < |z| ==> z[i] == 0
  }

  lemma {:induction false} BigEndianOfZeros(z: seq<byte>)
    requires AllZero(z)
    ensures BigEndian(z) == 0
  {
    if z != [] {
      BigEndianOfZeros(z[..|z| - 1]);
    }
  }

  /** Left-padding with zero bytes does not change the big-endian value. */
  lemma BigEndianLeadingZeros(z: seq<byte>, s: seq<byte>)
    requires AllZero(z)
    ensures BigEndian(z + s) == BigEndian(s)
  {
    BigEndianAppend(z, s);
    BigEndianOfZeros(z);
  }

  /** Encoding the value of a byte string at its own width gives the string back. */
  lemma {:induction false} BigEndianInjective(s: seq<byte>)
    ensures ToBigEndian(BigEndian(s), |s|) == s
  {
    if s != [] {
      var high := s[..|s| - 1];
      BigEndianInjective(high);
      assert BigEndian(s) / 256 == BigEndian(high);
      assert BigEndian(s) % 256 == s[|s| - 1];
      assert high + [s[|s| - 1]] == s;
    }
  }

  /** binary.LittleEndian.Uint32 over the four bytes at `off`. */
  function Le32(s: seq<byte>, off: nat): (v: uint32)
    requires off + 4 <= |s|
  {
    var b0, b1, b2, b3 := s[off] as int, s[off + 1] as int, s[off + 2] as int, s[off + 3] as int;
    b0 + 256 * b1 + 0x1_0000 * b2 + 0x100_0000 * b3
  }

  /** A prefix shifts where four bytes are read, not what they say. */
  lemma Le32Shift(pre: seq<byte>, x: seq<byte>, off: nat)
    requires off + 4 <= |x|
    ensures Le32(pre + x, |pre| + off) == Le32(x, off)
  {
    var s := pre + x;
    assert s[|pre| + off] == x[off] && s[|pre| + off + 1] == x[off + 1];
    assert s[|pre| + off + 2] == x[off + 2] && s[|pre| + off + 3] == x[off + 3];
  }

  /** binary.LittleEndian.PutUint32. */
  function Le32Bytes(v: uint32): (s: seq<byte>)
    ensures |s| == 4
  {
    var q1 := v / 256;
    var q2 := q1 / 256;
    [v % 256, q1 % 256, q2 % 256, q2 / 256]
  }

  lemma DivMod256(v: nat)
    ensures v == 256 * (v / 256) + v % 256
  {
  }

  lemma Le32BytesValue(v: uint32)
    ensures var s := Le32Bytes(v);
            s[0] as int + 256 * (s[1] as int) + 0x1_0000 * (s[2] as int) + 0x100_0000 * (s[3] as int) == v
  {
    var q1 := v / 256;
    var q2 := q1 / 256;
    DivMod256(v);
    DivMod256(q1);
    DivMod256(q2);
    var r0, r1, r2, r3 := v % 256, q1 % 256, q2 % 256, q2 / 256;
    assert v == 256 * q1 + r0;
    assert q1 == 256 * q2 + r1;
    assert q2 == 256 * r3 + r2;
  }

  lemma Le32RoundTrip(v: uint32, pre: seq<byte>, post: seq<byte>)
    ensures Le32(pre + Le32Bytes(v) + post, |pre|) == v
  {
    var s := pre + Le32Bytes(v) + post;
    assert s[|pre|..|pre| + 4] == Le32Bytes(v);
    Le32BytesValue(v);
  }

  lemma Le32Head(v: uint32, post: seq<byte>)
    ensures Le32(Le32Bytes(v) + post, 0) == v
  {
    Le32RoundTrip(v, [], post);
    assert [] + Le32Bytes(v) + post == Le32Bytes(v) + post;
  }

  /**
   * Go's conversion int(u) of a uint64 on a 64-bit platform: the result is
   * the one signed 64-bit value congruent to u modulo 2^64.
   */
  function GoInt64(u: nat): (i: int)
    requires u < Two64
    ensures -(Two63 as int) <= i < Two63
    ensures (u - i) % Two64 == 0
    ensures u < Two63 <==> i >= 0
  {
    if u < Two63 then u else u - Two64
  }

  /** The signed 64-bit value congruent to u is unique, so GoInt64 is the wrap. */
  lemma GoInt64Unique(u: nat, j: int)
    requires u < Two64
    requires -(Two63 as int) <= j < Two63
    requires (u - j) % Two64 == 0
    ensures j == GoInt64(u)
  {
  }
}
