/**
  Reading fixed-width values from the front of a chunk's content, as the
  `byteorder` crate's `ReadBytesExt` does on a bounded content reader: each
  read yields the value and the bytes that remain, and a read past the end
  of the content fails with an I/O error.
*/
module ByteReader {
  import opened Wrappers
  import opened Bytes
  import opened Errors

  function ReadU8(s: seq<u8>): Result<(u8, seq<u8>), ReadError>
  {
    if |s| < 1 then Err(ReadError.Io) else Ok((s[0], s[1..]))
  }

  function ReadI8(s: seq<u8>): Result<(i8, seq<u8>), ReadError>
  {
    if |s| < 1 then Err(ReadError.Io) else Ok((ByteToI8(s[0]), s[1..]))
  }

  /** `read_u32::<LE>`. */
  function ReadU32(s: seq<u8>): Result<(u32, seq<u8>), ReadError>
  {
    if |s| < 4 then Err(ReadError.Io) else Ok((FromLE32(s[..4]), s[4..]))
  }

  lemma {:induction false} ReadU32RoundTrip(n: u32, rest: seq<u8>)
    ensures ReadU32(LE32(n) + rest) == Ok((n, rest))
  {
    assert (LE32(n) + rest)[..4] == LE32(n);
    assert (LE32(n) + rest)[4..] == rest;
    LE32RoundTrip(n);
  }
}
