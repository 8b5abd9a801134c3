/**
  The fixed-width integers of the on-disk format and their little-endian
  byte layout (the `byteorder` crate's `LE` order).
*/
module Bytes {

  type u8 = x: int | 0 <= x < 0x100
  type i8 = x: int | -0x80 <= x < 0x80
  type u32 = x: int | 0 <= x < 0x1_0000_0000

  const U32_MAX: u32 := 0xFFFF_FFFF

  /** The two's-complement byte that stores a signed byte. */
  function I8ToByte(x: i8): (b: u8)
    ensures x >= 0 ==> b == x
    ensures x < 0 ==> b == x + 0x100
  {
    if x < 0 then x + 0x100 else x
  }

  /** The signed byte a stored byte stands for. */
  function ByteToI8(b: u8): (x: i8)
    ensures b < 0x80 ==> x == b
    ensures b >= 0x80 ==> x == b - 0x100
  {
    if b >= 0x80 then b - 0x100 else b
  }

  lemma {:induction false} I8RoundTrip(x: i8, b: u8)
    ensures ByteToI8(I8ToByte(x)) == x
    ensures I8ToByte(ByteToI8(b)) == b
  {
  }

  /** A u32 as four bytes, least significant first. */
  function LE32(n: u32): (b: seq<u8>)
    ensures |b| == 4
  {
    [n % 0x100, (n / 0x100) % 0x100, (n / 0x1_0000) % 0x100, n / 0x100_0000]
  }

  /** The u32 that four little-endian bytes stand for. */
  function FromLE32(b: seq<u8>): u32
    requires |b| == 4
  {
    b[0] as int + 0x100 * b[1] as int + 0x1_0000 * b[2] as int + 0x100_0000 * b[3] as int
  }

  lemma {:induction false} LE32RoundTrip(n: u32)
    ensures FromLE32(LE32(n)) == n
  {
    var q1 := n / 0x100;
    var q2 := q1 / 0x100;
    assert n == n % 0x100 + 0x100 * q1;
    assert q1 == q1 % 0x100 + 0x100 * q2;
    assert q2 == q2 % 0x100 + 0x100 * (q2 / 0x100);
    assert n / 0x1_0000 == q2;
    assert n / 0x100_0000 == q2 / 0x100;
  }

  lemma {:induction false} FromLE32RoundTrip(b: seq<u8>)
    requires |b| == 4
    ensures LE32(FromLE32(b)) == b
  {
    var n := FromLE32(b);
    assert n % 0x100 == b[0];
    assert n / 0x100 == b[1] as int + 0x100 * b[2] as int + 0x1_0000 * b[3] as int;
    assert n / 0x1_0000 == b[2] as int + 0x100 * b[3] as int;
    assert n / 0x100_0000 == b[3];
  }

  /** The bytes of each element, in order: what a loop that writes the elements one by one emits. */
  function Flatten<T>(xs: seq<T>, enc: T -> seq<u8>): seq<u8>
  {
    if xs == [] then [] else enc(xs[0]) + Flatten(xs[1..], enc)
  }

  /** Writing one more element appends its bytes. */
  lemma {:induction false} FlattenSnoc<T>(xs: seq<T>, x: T, enc: T -> seq<u8>)
    ensures Flatten(xs + [x], enc) == Flatten(xs, enc) + enc(x)
  {
    if xs != [] {
      assert (xs + [x])[1..] == xs[1..] + [x];
      FlattenSnoc(xs[1..], x, enc);
    }
  }

  /** Elements of a fixed width `w` take `w` bytes each. */
  lemma {:induction false} FlattenLength<T>(xs: seq<T>, enc: T -> seq<u8>, w: nat)
    requires forall x :: |enc(x)| == w
    ensures |Flatten(xs, enc)| == w * |xs|
  {
    if xs != [] {
      FlattenLength(xs[1..], enc, w);
    }
  }
}
