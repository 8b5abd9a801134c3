/**
  The chunk framing as this model sees it. The header layout, the lazy child
  iterator, bounded content readers and length back-patching are not part of
  this model: a chunk is its four-byte identifier and its content bytes,
  and the children of the MAIN chunk are a sequence of such records in file order.
*/
module Chunk {
  import opened Bytes

  /** A chunk identifier: the four bytes stored on disk. */
  type ChunkId = s: seq<u8> | |s| == 4 witness [0, 0, 0, 0]

  /** "PACK" */
  const PACK: ChunkId := [0x50, 0x41, 0x43, 0x4B]
  /** "SIZE" */
  const SIZE: ChunkId := [0x53, 0x49, 0x5A, 0x45]
  /** "XYZI" */
  const XYZI: ChunkId := [0x58, 0x59, 0x5A, 0x49]
  /** "RGBA" */
  const RGBA: ChunkId := [0x52, 0x47, 0x42, 0x41]

  /** One child of the MAIN chunk: its identifier and its content bytes. */
  datatype Chunk = Chunk(id: ChunkId, content: seq<u8>)

  /** Identifiers that the container reader acts on; every other one is skipped. */
  predicate IsKnown(id: ChunkId) {
    id == PACK || id == SIZE || id == XYZI || id == RGBA
  }
}
