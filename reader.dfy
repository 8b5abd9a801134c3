/**
  `read_vox_into`: the assembly of a VOX file's contents from the children of
  its MAIN chunk. The children are sorted by identifier (at most one PACK, any
  number of SIZE and XYZI, at most one RGBA, everything else skipped), then the
  palette, the model count and the models are decoded and handed to the
  buffer, in that order.

  The specification is a function from the version and the children to a
  `Trace`: the buffer calls made and how the read ended. The methods perform
  the read step by step on an `EventLog` and are proved to make exactly the
  calls of that trace.
*/
module Reader {
  import opened Wrappers
  import opened Bytes
  import opened Chunk
  import opened Errors
  import opened ByteReader
  import opened Types
  import opened Sink

  // --------------------------------------------------------------- Bucketing

  /** The children collected so far: `pack_chunk`, `size_chunks`, `xyzi_chunks`, `rgba_chunk`. */
  datatype Buckets = Buckets(pack: Option<Chunk>, sizes: seq<Chunk>, xyzis: seq<Chunk>, rgba: Option<Chunk>)

  const NO_BUCKETS: Buckets := Buckets(None, [], [], None)

  /** Files one child; a second PACK or a second RGBA is an error carrying both chunks. */
  function Bucket(b: Buckets, c: Chunk): Result<Buckets, ReadError>
  {
    if c.id == PACK then
      if b.pack.Some? then Err(MultiplePackChunks(b.pack.value, c)) else Ok(b.(pack := Some(c)))
    else if c.id == SIZE then Ok(b.(sizes := b.sizes + [c]))
    else if c.id == XYZI then Ok(b.(xyzis := b.xyzis + [c]))
    else if c.id == RGBA then
      if b.rgba.Some? then Err(MultipleRgbaChunks(b.rgba.value, c)) else Ok(b.(rgba := Some(c)))
    else Ok(b)
  }

  /** Files the children in order, stopping at the first error. */
  function BucketAll(b: Buckets, cs: seq<Chunk>): Result<Buckets, ReadError>
    decreases |cs|
  {
    if cs == [] then Ok(b)
    else
      var b' :- Bucket(b, cs[0]);
      BucketAll(b', cs[1..])
  }

  // ------------------------------------------------------------------ Traces

  /**
    A buffer's calls, oldest first, and how the read ended. Each step below
    takes the calls made so far and extends them, as the buffer itself does.
  */
  datatype Trace = Trace(events: seq<Event>, outcome: Outcome<ReadError>)

  /** Reads `k` voxels from `s`, one `set_voxel` call each, after the calls `log`. */
  function VoxelsRun(log: seq<Event>, s: seq<u8>, k: nat): Trace
    decreases k
  {
    if k == 0 then Trace(log, Pass)
    else
      match ReadVoxel(s)
      case Err(e) => Trace(log, Fail(e))
      case Ok(v) => VoxelsRun(log + [SetVoxel(v.0)], v.1, k - 1)
  }

  /** One model: its size from the SIZE content, then the voxel count and voxels from the XYZI content. */
  function ModelRun(log: seq<Event>, size: Chunk, xyzi: Chunk): Trace
  {
    match ReadVector(size.content)
    case Err(e) => Trace(log, Fail(e))
    case Ok(v) =>
      match ReadU32(xyzi.content)
      case Err(e) => Trace(log + [SetModelSize(v.0)], Fail(e))
      case Ok(n) => VoxelsRun(log + [SetModelSize(v.0)], n.1, n.0)
  }

  /** The models of the SIZE and XYZI children, paired in the order they were found. */
  function ModelsRun(log: seq<Event>, sizes: seq<Chunk>, xyzis: seq<Chunk>): Trace
    requires |sizes| == |xyzis|
    decreases |sizes|
  {
    if sizes == [] then Trace(log, Pass)
    else
      var t := ModelRun(log, sizes[0], xyzis[0]);
      if t.outcome.Fail? then t else ModelsRun(t.events, sizes[1..], xyzis[1..])
  }

  /** The model count: the first u32 of the PACK content, 1 without a PACK child. */
  function NumModels(pack: Option<Chunk>): Result<nat, ReadError>
  {
    match pack
    case None => Ok(1)
    case Some(c) =>
      var n :- ReadU32(c.content);
      Ok(n.0)
  }

  /** What follows the child loop: the palette if there is an RGBA child, the model count and its check, the models. */
  function AssembleRun(log: seq<Event>, b: Buckets): Trace
  {
    var withPalette: Result<seq<Event>, ReadError> :=
      match b.rgba
      case None => Ok(log)
      case Some(c) =>
        match DecodePalette(c.content)
        case Err(e) => Err(e)
        case Ok(p) => Ok(log + [SetPalette(p.0)]);
    match withPalette
    case Err(e) => Trace(log, Fail(e))
    case Ok(log1) =>
      match NumModels(b.pack)
      case Err(e) => Trace(log1, Fail(e))
      case Ok(n) =>
        if n != |b.sizes| || n != |b.xyzis| then
          Trace(log1, Fail(InvalidNumberOfSizeAndXyziChunks(b.sizes, b.xyzis, n)))
        else
          ModelsRun(log1 + [SetNumModels(n)], b.sizes, b.xyzis)
  }

  /** `read_vox_into` on a buffer that has received `log`, once the MAIN chunk has yielded `version` and `children`. */
  function ReadVoxRun(log: seq<Event>, version: Version, children: seq<Chunk>): Trace
  {
    match BucketAll(NO_BUCKETS, children)
    case Err(e) => Trace(log + [SetVersion(version)], Fail(e))
    case Ok(b) => AssembleRun(log + [SetVersion(version)], b)
  }

  /** `read_vox_into` on a fresh buffer. */
  function ReadVox(version: Version, children: seq<Chunk>): Trace
  {
    ReadVoxRun([], version, children)
  }

  // ----------------------------------------------------------------- Methods

  /** The child loop: sorts the children into buckets. */
  method BucketChildren(children: seq<Chunk>) returns (r: Result<Buckets, ReadError>)
    ensures r == BucketAll(NO_BUCKETS, children)
  {
    var pack: Option<Chunk> := None;
    var sizes: seq<Chunk> := [];
    var xyzis: seq<Chunk> := [];
    var rgba: Option<Chunk> := None;
    for i := 0 to |children|
      invariant BucketAll(NO_BUCKETS, children) == BucketAll(Buckets(pack, sizes, xyzis, rgba), children[i..])
    {
      var c := children[i];
      assert children[i..][1..] == children[i + 1..];
      if c.id == PACK {
        if pack.Some? {
          return Err(MultiplePackChunks(pack.value, c));
        }
        pack := Some(c);
      } else if c.id == SIZE {
        sizes := sizes + [c];
      } else if c.id == XYZI {
        xyzis := xyzis + [c];
      } else if c.id == RGBA {
        if rgba.Some? {
          return Err(MultipleRgbaChunks(rgba.value, c));
        }
        rgba := Some(c);
      }
    }
    assert children[|children|..] == [];
    return Ok(Buckets(pack, sizes, xyzis, rgba));
  }

  /** The voxel loop: `count` voxels read from `s` and handed to the buffer. */
  method ReadVoxelsInto(s: seq<u8>, count: nat, sink: EventLog) returns (r: Outcome<ReadError>)
    modifies sink
    ensures sink.events == VoxelsRun(old(sink.events), s, count).events
    ensures r == VoxelsRun(old(sink.events), s, count).outcome
  {
    var cur := s;
    for j := 0 to count
      invariant VoxelsRun(old(sink.events), s, count) == VoxelsRun(sink.events, cur, count - j)
    {
      var v := ReadVoxel(cur);
      if v.Err? {
        return Fail(v.error);
      }
      sink.SetVoxel(v.value.0);
      cur := v.value.1;
    }
    return Pass;
  }

  /** One SIZE/XYZI pair: the model size, then its voxels. */
  method ReadModelInto(size: Chunk, xyzi: Chunk, sink: EventLog) returns (r: Outcome<ReadError>)
    modifies sink
    ensures sink.events == ModelRun(old(sink.events), size, xyzi).events
    ensures r == ModelRun(old(sink.events), size, xyzi).outcome
  {
    var v := ReadVector(size.content);
    if v.Err? {
      return Fail(v.error);
    }
    sink.SetModelSize(v.value.0);
    var n := ReadU32(xyzi.content);
    if n.Err? {
      return Fail(n.error);
    }
    r := ReadVoxelsInto(n.value.1, n.value.0, sink);
  }

  /** The model loop over the SIZE and XYZI children, zipped. */
  method ReadModelsInto(sizes: seq<Chunk>, xyzis: seq<Chunk>, sink: EventLog) returns (r: Outcome<ReadError>)
    requires |sizes| == |xyzis|
    modifies sink
    ensures sink.events == ModelsRun(old(sink.events), sizes, xyzis).events
    ensures r == ModelsRun(old(sink.events), sizes, xyzis).outcome
  {
    for i := 0 to |sizes|
      invariant ModelsRun(old(sink.events), sizes, xyzis) == ModelsRun(sink.events, sizes[i..], xyzis[i..])
    {
      assert sizes[i..][1..] == sizes[i + 1..] && xyzis[i..][1..] == xyzis[i + 1..];
      var o := ReadModelInto(sizes[i], xyzis[i], sink);
      if o.Fail? {
        return o;
      }
    }
    assert sizes[|sizes|..] == [] && xyzis[|sizes|..] == [];
    return Pass;
  }

  /** Everything after the child loop: palette, model count and its check, models. */
  method AssembleInto(b: Buckets, sink: EventLog) returns (r: Outcome<ReadError>)
    modifies sink
    ensures sink.events == AssembleRun(old(sink.events), b).events
    ensures r == AssembleRun(old(sink.events), b).outcome
  {
    if b.rgba.Some? {
      var p := ReadPalette(b.rgba.value.content);
      if p.Err? {
        return Fail(p.error);
      }
      sink.SetPalette(p.value.0);
    }
    var numModels: nat := 1;
    if b.pack.Some? {
      var n := ReadU32(b.pack.value.content);
      if n.Err? {
        return Fail(n.error);
      }
      numModels := n.value.0;
    }
    if numModels != |b.sizes| || numModels != |b.xyzis| {
      return Fail(InvalidNumberOfSizeAndXyziChunks(b.sizes, b.xyzis, numModels));
    }
    sink.SetNumModels(numModels);
    r := ReadModelsInto(b.sizes, b.xyzis, sink);
  }

  /** `read_vox_into`: the version call, the child loop, then the rest. */
  method ReadVoxInto(version: Version, children: seq<Chunk>, sink: EventLog) returns (r: Outcome<ReadError>)
    modifies sink
    ensures sink.events == ReadVoxRun(old(sink.events), version, children).events
    ensures r == ReadVoxRun(old(sink.events), version, children).outcome
  {
    sink.SetVersion(version);
    var bucketed := BucketChildren(children);
    if bucketed.Err? {
      return Fail(bucketed.error);
    }
    r := AssembleInto(bucketed.value, sink);
  }
}
