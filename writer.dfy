/**
  `to_writer`: a VOX file is written as the file header ("VOX " and the
  version) followed by a MAIN chunk whose children are an optional PACK
  child, a SIZE and an XYZI child per model, and an RGBA child when the
  palette is not the default one.

  The chunk framing (header layout, length back-patching) is not part of this
  model: the writer records the raw bytes written before the MAIN chunk and
  the children of the MAIN chunk as identifier/content records. The
  specification is a function from what has been written so far and the data
  to `Written`: the children after the call and how the write ended.
*/
module Writer {
  import opened Wrappers
  import opened Bytes
  import opened Chunk
  import opened Errors
  import opened Types

  /** The data `to_writer` reads: the models and the palette of a `VoxData`. */
  datatype VoxData = VoxData(models: seq<Model>, palette: Palette)

  /** The four bytes "VOX " that open every file. */
  const MAGIC: seq<u8> := [0x56, 0x4F, 0x58, 0x20]

  /** `write_file_header`: the magic, then the version as a u32 LE. */
  function FileHeader(version: Version): seq<u8>
  {
    MAGIC + EncodeVersion(version)
  }

  /** The header is eight bytes: the magic, then four bytes that read back as the version. */
  lemma {:induction false} FileHeaderLayout(version: Version)
    ensures |FileHeader(version)| == 8
    ensures FileHeader(version)[..4] == MAGIC
    ensures ReadVersion(FileHeader(version)[4..]) == Ok((version, []))
  {
    VersionRoundTrip(version, []);
    assert FileHeader(version)[4..] == EncodeVersion(version) + [];
  }

  // --------------------------------------------------------------- Contents

  /** Every model's voxel count fits the u32 field of its XYZI chunk. */
  predicate Fits(ms: seq<Model>)
  {
    forall i :: 0 <= i < |ms| ==> |ms[i].voxels| <= U32_MAX
  }

  /** The PACK content: the model count as a u32 LE, or `Overflow` if it does not fit. */
  function PackContent(n: nat): Result<seq<u8>, WriteError>
  {
    if n > U32_MAX then Err(Overflow) else Ok(LE32(n))
  }

  /** The XYZI content of voxels whose count fits: the count, then four bytes per voxel. */
  function XyziBytes(vs: seq<Voxel>): seq<u8>
    requires |vs| <= U32_MAX
  {
    LE32(|vs|) + Flatten(vs, EncodeVoxel)
  }

  /** The XYZI content, or `Overflow` if the voxel count does not fit. */
  function XyziContent(vs: seq<Voxel>): Result<seq<u8>, WriteError>
  {
    if |vs| > U32_MAX then Err(Overflow) else Ok(XyziBytes(vs))
  }

  /** An XYZI content is 4 + 4n bytes: the count n, then voxel i at bytes 4 + 4i .. 8 + 4i. */
  lemma {:induction false} XyziLayout(vs: seq<Voxel>)
    requires |vs| <= U32_MAX
    ensures |XyziBytes(vs)| == 4 + 4 * |vs|
    ensures FromLE32(XyziBytes(vs)[..4]) == |vs|
    ensures forall i :: 0 <= i < |vs| ==> XyziBytes(vs)[4 + 4 * i..8 + 4 * i] == EncodeVoxel(vs[i])
  {
    forall v ensures |EncodeVoxel(v)| == 4 {
      VoxelRoundTrip(v, []);
    }
    FlattenLength(vs, EncodeVoxel, 4);
    assert XyziBytes(vs)[..4] == LE32(|vs|);
    LE32RoundTrip(|vs|);
    forall i | 0 <= i < |vs|
      ensures XyziBytes(vs)[4 + 4 * i..8 + 4 * i] == EncodeVoxel(vs[i])
    {
      VoxelAt(vs, i);
      assert XyziBytes(vs)[4 + 4 * i..8 + 4 * i] == Flatten(vs, EncodeVoxel)[4 * i..4 * i + 4];
    }
  }

  lemma {:induction false} VoxelAt(vs: seq<Voxel>, j: nat)
    requires j < |vs|
    ensures |Flatten(vs, EncodeVoxel)| == 4 * |vs|
    ensures Flatten(vs, EncodeVoxel)[4 * j..4 * j + 4] == EncodeVoxel(vs[j])
  {
    forall v ensures |EncodeVoxel(v)| == 4 {
      VoxelRoundTrip(v, []);
    }
    FlattenLength(vs, EncodeVoxel, 4);
    if j > 0 {
      VoxelAt(vs[1..], j - 1);
    }
  }

  // ------------------------------------------------------------------ Runs

  /** The MAIN chunk's children after a call, and how the call ended. */
  datatype Written = Written(children: seq<Chunk>, outcome: Outcome<WriteError>)

  /** The model loop after the children `log`: a SIZE child, then an XYZI child, per model. */
  function ModelsWritten(log: seq<Chunk>, ms: seq<Model>): Written
    decreases |ms|
  {
    if ms == [] then Written(log, Pass)
    else
      var log1 := log + [Chunk(SIZE, EncodeVector(ms[0].size))];
      match XyziContent(ms[0].voxels)
      case Err(e) => Written(log1, Fail(e))
      case Ok(x) => ModelsWritten(log1 + [Chunk(XYZI, x)], ms[1..])
  }

  /** The closure `to_writer` passes to the MAIN chunk writer, after the children `log`. */
  function ChildrenWritten(log: seq<Chunk>, vox: VoxData): Written
  {
    var n := |vox.models|;
    if n == 0 then Written(log, Fail(NoModels))
    else
      var withPack: Result<seq<Chunk>, WriteError> :=
        if n == 1 then Ok(log)
        else
          match PackContent(n)
          case Err(e) => Err(e)
          case Ok(c) => Ok(log + [Chunk(PACK, c)]);
      match withPack
      case Err(e) => Written(log, Fail(e))
      case Ok(log1) =>
        var w := ModelsWritten(log1, vox.models);
        if w.outcome.Fail? || IsDefault(vox.palette) then w
        else Written(w.children + [Chunk(RGBA, EncodePalette(vox.palette))], Pass)
  }

  /** The children of the MAIN chunk that `to_writer` writes for `vox`, and how it ends. */
  function ChildrenOf(vox: VoxData): Written
  {
    ChildrenWritten([], vox)
  }

  // ----------------------------------------------------------------- Methods

  /**
    The output stream: the bytes written before the MAIN chunk, and the
    children of the MAIN chunk that is open.
  */
  class VoxWriter {
    var header: seq<u8>
    var children: seq<Chunk>

    constructor()
      ensures header == [] && children == []
    {
      header := [];
      children := [];
    }

    /** `write_all` outside any chunk. */
    method WriteAll(bytes: seq<u8>)
      modifies this
      ensures header == old(header) + bytes && children == old(children)
    {
      header := header + bytes;
    }

    /** Opening the MAIN chunk: it has no children yet. */
    method BeginMain()
      modifies this
      ensures header == old(header) && children == []
    {
      children := [];
    }

    /** `child_content_writer`: one more child with the given content. */
    method ChildContentWriter(id: ChunkId, content: seq<u8>)
      modifies this
      ensures header == old(header) && children == old(children) + [Chunk(id, content)]
    {
      children := children + [Chunk(id, content)];
    }
  }

  /** `write_file_header`. */
  method WriteFileHeader(w: VoxWriter, version: Version)
    modifies w
    ensures w.header == old(w.header) + FileHeader(version)
    ensures w.children == old(w.children)
  {
    w.WriteAll(MAGIC);
    w.WriteAll(EncodeVersion(version));
    assert old(w.header) + MAGIC + EncodeVersion(version) == old(w.header) + FileHeader(version);
  }

  /** The XYZI closure: the voxel count, then each voxel in turn. */
  method EncodeXyzi(vs: seq<Voxel>) returns (r: Result<seq<u8>, WriteError>)
    ensures r == XyziContent(vs)
  {
    if |vs| > U32_MAX {
      return Err(Overflow);
    }
    var out := LE32(|vs|);
    for i := 0 to |vs|
      invariant out == LE32(|vs|) + Flatten(vs[..i], EncodeVoxel)
    {
      FlattenSnoc(vs[..i], vs[i], EncodeVoxel);
      assert vs[..i + 1] == vs[..i] + [vs[i]];
      out := out + EncodeVoxel(vs[i]);
    }
    assert vs[..|vs|] == vs;
    return Ok(out);
  }

  /** The model loop. */
  method WriteModels(w: VoxWriter, ms: seq<Model>) returns (r: Outcome<WriteError>)
    modifies w
    ensures w.children == ModelsWritten(old(w.children), ms).children
    ensures r == ModelsWritten(old(w.children), ms).outcome
    ensures w.header == old(w.header)
  {
    for i := 0 to |ms|
      invariant ModelsWritten(old(w.children), ms) == ModelsWritten(w.children, ms[i..])
      invariant w.header == old(w.header)
    {
      assert ms[i..][1..] == ms[i + 1..];
      w.ChildContentWriter(SIZE, EncodeVector(ms[i].size));
      var x := EncodeXyzi(ms[i].voxels);
      if x.Err? {
        return Fail(x.error);
      }
      w.ChildContentWriter(XYZI, x.value);
    }
    assert ms[|ms|..] == [];
    return Pass;
  }

  /** The closure body of `to_writer`: PACK if more than one model, the models, RGBA if not the default palette. */
  method WriteChildren(w: VoxWriter, vox: VoxData) returns (r: Outcome<WriteError>)
    modifies w
    ensures w.children == ChildrenWritten(old(w.children), vox).children
    ensures r == ChildrenWritten(old(w.children), vox).outcome
    ensures w.header == old(w.header)
  {
    var n := |vox.models|;
    if n == 0 {
      return Fail(NoModels);
    } else if n > 1 {
      if n > U32_MAX {
        return Fail(Overflow);
      }
      w.ChildContentWriter(PACK, LE32(n));
    }
    r := WriteModels(w, vox.models);
    if r.Fail? {
      return;
    }
    if !IsDefault(vox.palette) {
      var bytes := WritePalette(vox.palette);
      w.ChildContentWriter(RGBA, bytes);
    }
  }

  /** `main_chunk_writer`, with the closure `to_writer` gives it: the header, then the MAIN chunk's children. */
  method MainChunkWriter(w: VoxWriter, version: Version, vox: VoxData) returns (r: Outcome<WriteError>)
    modifies w
    ensures w.header == old(w.header) + FileHeader(version)
    ensures w.children == ChildrenOf(vox).children
    ensures r == ChildrenOf(vox).outcome
  {
    WriteFileHeader(w, version);
    w.BeginMain();
    r := WriteChildren(w, vox);
  }

  /** `to_writer`: always the default version, whatever the data. */
  method ToWriter(w: VoxWriter, vox: VoxData) returns (r: Outcome<WriteError>)
    modifies w
    ensures w.header == old(w.header) + FileHeader(DEFAULT_VERSION)
    ensures w.children == ChildrenOf(vox).children
    ensures r == ChildrenOf(vox).outcome
  {
    r := MainChunkWriter(w, DEFAULT_VERSION, vox);
  }
}
