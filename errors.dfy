/** The error types of the reader and of the writer. */
module Errors {
  import opened Bytes
  import opened Chunk

  /**
    Why reading a VOX file failed. Chunks are carried as records; the byte
    offsets the Rust chunks also hold belong to the framing layer.
  */
  datatype ReadError =
    | InvalidMagic(got: seq<u8>)
    | ExpectedMainChunk(chunk: Chunk)
    | MultiplePackChunks(first: Chunk, second: Chunk)
    | InvalidNumberOfSizeAndXyziChunks(sizeChunks: seq<Chunk>, xyziChunks: seq<Chunk>, numModels: nat)
    | MultipleRgbaChunks(first: Chunk, second: Chunk)
    | InvalidMaterial(ty: u8)
      /** A read past the end of a chunk's content (an I/O error of the bounded reader). */
    | Io

  /** Why writing a VOX file failed. */
  datatype WriteError =
    | Io
      /** A count does not fit the u32 field that stores it. */
    | Overflow
    | NoModels
      /** A read error raised inside a chunk-writer closure. */
    | Reader(readError: ReadError)
}
