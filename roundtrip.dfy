/**
  The reader and the writer mirror each other: the children `to_writer`
  writes, read back by `read_vox_into`, deliver the models that were written
  and the palette, apart from palette entry 0, which no RGBA chunk stores.
*/
module RoundTrip {
  import opened Wrappers
  import opened Bytes
  import opened Chunk
  import opened Errors
  import opened ByteReader
  import opened Types
  import opened Sink
  import opened Reader
  import opened ReaderProperties
  import opened Writer
  import opened WriterProperties

  /** Voxels written one after another read back in order, whatever follows them. */
  lemma {:induction false} DecodeVoxelsRoundTrip(vs: seq<Voxel>, rest: seq<u8>)
    ensures DecodeVoxels(Flatten(vs, EncodeVoxel) + rest, |vs|) == Ok(vs)
    decreases |vs|
  {
    if vs != [] {
      var tail := Flatten(vs[1..], EncodeVoxel) + rest;
      assert Flatten(vs, EncodeVoxel) + rest == EncodeVoxel(vs[0]) + tail;
      VoxelRoundTrip(vs[0], tail);
      DecodeVoxelsRoundTrip(vs[1..], rest);
      assert [vs[0]] + vs[1..] == vs;
    }
  }

  /** A written SIZE child and XYZI child read back as the model. */
  lemma {:induction false} DecodeModelRoundTrip(m: Model)
    requires |m.voxels| <= U32_MAX
    ensures DecodeModel(Chunk(SIZE, EncodeVector(m.size)), Chunk(XYZI, XyziBytes(m.voxels))) == Ok(m)
  {
    VectorRoundTrip(m.size, []);
    assert EncodeVector(m.size) + [] == EncodeVector(m.size);
    ReadU32RoundTrip(|m.voxels|, Flatten(m.voxels, EncodeVoxel));
    DecodeVoxelsRoundTrip(m.voxels, []);
    assert Flatten(m.voxels, EncodeVoxel) + [] == Flatten(m.voxels, EncodeVoxel);
  }

  /** The SIZE children the writer emits, one per model. */
  function SizeChunks(ms: seq<Model>): (r: seq<Chunk>)
    ensures |r| == |ms|
  {
    if ms == [] then [] else [Chunk(SIZE, EncodeVector(ms[0].size))] + SizeChunks(ms[1..])
  }

  /** The XYZI children the writer emits, one per model. */
  function XyziChunks(ms: seq<Model>): (r: seq<Chunk>)
    requires Fits(ms)
    ensures |r| == |ms|
  {
    if ms == [] then []
    else
      assert forall i :: 0 <= i < |ms| - 1 ==> ms[1..][i] == ms[i + 1];
      [Chunk(XYZI, XyziBytes(ms[0].voxels))] + XyziChunks(ms[1..])
  }

  /** The four identifiers the reader acts on are distinct. */
  lemma {:induction false} DistinctIds()
    ensures PACK != SIZE && PACK != XYZI && PACK != RGBA && SIZE != XYZI && SIZE != RGBA && XYZI != RGBA
  {
    assert PACK[0] == 0x50 && SIZE[0] == 0x53 && XYZI[0] == 0x58 && RGBA[0] == 0x52;
  }

  lemma {:induction false} OnlyCons(c: Chunk, cs: seq<Chunk>, id: ChunkId)
    ensures Only([c] + cs, id) == (if c.id == id then [c] else []) + Only(cs, id)
  {
    assert ([c] + cs)[1..] == cs;
  }

  /** The SIZE children among the model children are one per model, in order. */
  lemma {:induction false} OnlyModelSizes(ms: seq<Model>)
    requires Fits(ms)
    ensures Only(ModelChunks(ms), SIZE) == SizeChunks(ms)
    decreases |ms|
  {
    if ms != [] {
      FitsTail(ms);
      var sz, xz := Chunk(SIZE, EncodeVector(ms[0].size)), Chunk(XYZI, XyziBytes(ms[0].voxels));
      var tail := ModelChunks(ms[1..]);
      assert ModelChunks(ms) == [sz] + ([xz] + tail);
      assert Only([xz] + tail, SIZE) == Only(tail, SIZE) by {
        OnlyCons(xz, tail, SIZE);
        DistinctIds();
      }
      assert Only([sz] + ([xz] + tail), SIZE) == [sz] + Only([xz] + tail, SIZE) by {
        OnlyCons(sz, [xz] + tail, SIZE);
      }
      OnlyModelSizes(ms[1..]);
    }
  }

  /** The XYZI children among the model children are one per model, in order. */
  lemma {:induction false} OnlyModelXyzis(ms: seq<Model>)
    requires Fits(ms)
    ensures Only(ModelChunks(ms), XYZI) == XyziChunks(ms)
    decreases |ms|
  {
    if ms != [] {
      FitsTail(ms);
      var sz, xz := Chunk(SIZE, EncodeVector(ms[0].size)), Chunk(XYZI, XyziBytes(ms[0].voxels));
      var tail := ModelChunks(ms[1..]);
      assert ModelChunks(ms) == [sz] + ([xz] + tail);
      assert Only([xz] + tail, XYZI) == [xz] + Only(tail, XYZI) by {
        OnlyCons(xz, tail, XYZI);
      }
      assert Only([sz] + ([xz] + tail), XYZI) == Only([xz] + tail, XYZI) by {
        OnlyCons(sz, [xz] + tail, XYZI);
        DistinctIds();
      }
      OnlyModelXyzis(ms[1..]);
    }
  }

  /** The model children hold no child with any other identifier. */
  lemma {:induction false} OnlyModelOther(ms: seq<Model>, id: ChunkId)
    requires Fits(ms) && id != SIZE && id != XYZI
    ensures Only(ModelChunks(ms), id) == []
    decreases |ms|
  {
    if ms != [] {
      FitsTail(ms);
      var sz, xz := Chunk(SIZE, EncodeVector(ms[0].size)), Chunk(XYZI, XyziBytes(ms[0].voxels));
      OnlyModelOther(ms[1..], id);
      assert ModelChunks(ms) == [sz] + ([xz] + ModelChunks(ms[1..]));
      OnlyCons(sz, [xz] + ModelChunks(ms[1..]), id);
      OnlyCons(xz, ModelChunks(ms[1..]), id);
    }
  }

  /** A list of at most one child with identifier `c.id`. */
  lemma {:induction false} OnlyOptional(cs: seq<Chunk>, c: Chunk, id: ChunkId)
    requires cs == [] || cs == [c]
    ensures Only(cs, id) == if c.id == id then cs else []
  {
    if cs == [c] {
      OnlyCons(c, [], id);
      assert [c] + [] == [c];
    }
  }

  /** The written model children decode, pairwise, to the models. */
  lemma {:induction false} DecodeModelsRoundTrip(ms: seq<Model>)
    requires Fits(ms)
    ensures DecodeModels(SizeChunks(ms), XyziChunks(ms)) == Ok(ms)
    decreases |ms|
  {
    if ms != [] {
      FitsTail(ms);
      var sizes, xyzis := SizeChunks(ms), XyziChunks(ms);
      assert sizes[0] == Chunk(SIZE, EncodeVector(ms[0].size)) && sizes[1..] == SizeChunks(ms[1..]);
      assert xyzis[0] == Chunk(XYZI, XyziBytes(ms[0].voxels)) && xyzis[1..] == XyziChunks(ms[1..]);
      assert DecodeModel(sizes[0], xyzis[0]) == Ok(ms[0]) by {
        DecodeModelRoundTrip(ms[0]);
      }
      DecodeModelsRoundTrip(ms[1..]);
      assert [ms[0]] + ms[1..] == ms;
    }
  }

  /** The palette that reading back a written RGBA child gives: entry 0 always comes from the default table. */
  function ReadBackPalette(p: Palette): Palette
  {
    Palette([DEFAULT_PALETTE.colors[0]] + p.colors[1..])
  }

  lemma {:induction false} OnlyThree(xs: seq<Chunk>, ys: seq<Chunk>, zs: seq<Chunk>, id: ChunkId)
    ensures Only(xs + ys + zs, id) == Only(xs, id) + Only(ys, id) + Only(zs, id)
  {
    OnlyAppend(xs + ys, zs, id);
    OnlyAppend(xs, ys, id);
  }

  /** The PACK and RGBA children among the written ones: the count when there is more than one model, the palette when it is not the default one. */
  lemma {:induction false} WrittenSingletons(vox: VoxData)
    requires 1 <= |vox.models| <= U32_MAX && Fits(vox.models)
    ensures var cs := ChildrenOf(vox).children;
      && Only(cs, PACK) == PackChunks(|vox.models|)
      && Only(cs, RGBA) == RgbaChunks(vox.palette)
  {
    var n := |vox.models|;
    var pk, ms, rg := PackChunks(n), ModelChunks(vox.models), RgbaChunks(vox.palette);
    var pc, rc := Chunk(PACK, LE32(n)), Chunk(RGBA, EncodePalette(vox.palette));
    WrittenChildren(vox);
    DistinctIds();
    assert Only(pk + ms + rg, PACK) == pk by {
      OnlyThree(pk, ms, rg, PACK);
      OnlyModelOther(vox.models, PACK);
      OnlyOptional(pk, pc, PACK);
      OnlyOptional(rg, rc, PACK);
    }
    assert Only(pk + ms + rg, RGBA) == rg by {
      OnlyThree(pk, ms, rg, RGBA);
      OnlyModelOther(vox.models, RGBA);
      OnlyOptional(pk, pc, RGBA);
      OnlyOptional(rg, rc, RGBA);
    }
  }

  /** The SIZE or XYZI children among the written ones are those among the model children. */
  lemma {:induction false} WrittenModelKind(vox: VoxData, id: ChunkId)
    requires 1 <= |vox.models| <= U32_MAX && Fits(vox.models)
    requires id == SIZE || id == XYZI
    ensures Only(ChildrenOf(vox).children, id) == Only(ModelChunks(vox.models), id)
  {
    var n := |vox.models|;
    var pk, ms, rg := PackChunks(n), ModelChunks(vox.models), RgbaChunks(vox.palette);
    WrittenChildren(vox);
    DistinctIds();
    OnlyThree(pk, ms, rg, id);
    OnlyOptional(pk, Chunk(PACK, LE32(n)), id);
    OnlyOptional(rg, Chunk(RGBA, EncodePalette(vox.palette)), id);
  }

  /** The SIZE and XYZI children among the written ones: those of each model, in model order. */
  lemma {:induction false} WrittenModelKinds(vox: VoxData)
    requires 1 <= |vox.models| <= U32_MAX && Fits(vox.models)
    ensures var cs := ChildrenOf(vox).children;
      && Only(cs, SIZE) == SizeChunks(vox.models)
      && Only(cs, XYZI) == XyziChunks(vox.models)
  {
    WrittenModelKind(vox, SIZE);
    OnlyModelSizes(vox.models);
    WrittenModelKind(vox, XYZI);
    OnlyModelXyzis(vox.models);
  }

  /** The written children sort into the buckets: the PACK child, the RGBA child, and the per-model children. */
  lemma {:induction false} WrittenBuckets(vox: VoxData)
    requires 1 <= |vox.models| <= U32_MAX && Fits(vox.models)
    ensures BucketAll(NO_BUCKETS, ChildrenOf(vox).children)
         == Ok(Buckets(
              if |vox.models| > 1 then Some(Chunk(PACK, LE32(|vox.models|))) else None,
              SizeChunks(vox.models), XyziChunks(vox.models),
              if IsDefault(vox.palette) then None else Some(Chunk(RGBA, EncodePalette(vox.palette)))))
  {
    WrittenSingletons(vox);
    WrittenModelKinds(vox);
    BucketsContent(ChildrenOf(vox).children);
  }

  /**
    Decoding the written children gives back the models and, when the palette
    is not the default one, the palette with entry 0 taken from the default
    table; a default palette is not written and reads back as none.
  */
  lemma {:induction false} WriteThenDecode(vox: VoxData)
    requires 1 <= |vox.models| <= U32_MAX && Fits(vox.models)
    ensures DecodeVox(ChildrenOf(vox).children)
         == Ok(Contents(if IsDefault(vox.palette) then None else Some(ReadBackPalette(vox.palette)), vox.models))
  {
    var n := |vox.models|;
    var b := Buckets(
      if n > 1 then Some(Chunk(PACK, LE32(n))) else None,
      SizeChunks(vox.models), XyziChunks(vox.models),
      if IsDefault(vox.palette) then None else Some(Chunk(RGBA, EncodePalette(vox.palette))));
    WrittenBuckets(vox);
    assert NumModels(b.pack) == Ok(n) by {
      if n > 1 {
        ReadU32RoundTrip(n, []);
        assert LE32(n) + [] == LE32(n);
      }
    }
    assert DecodeRgba(b.rgba) == Ok(if IsDefault(vox.palette) then None else Some(ReadBackPalette(vox.palette))) by {
      if !IsDefault(vox.palette) {
        PaletteRoundTrip(vox.palette, []);
        assert EncodePalette(vox.palette) + [] == EncodePalette(vox.palette);
      }
    }
    assert DecodeModels(b.sizes, b.xyzis) == Ok(vox.models) by {
      DecodeModelsRoundTrip(vox.models);
    }
  }

  /**
    `read_vox_into` on what `to_writer` writes: the header holds the magic and
    reads back as the default version; given that version and the children,
    the read succeeds and makes the calls that deliver the version, the
    palette when it is not the default one, the model count and every model;
    when palette entry 0 is the default one, the palette delivered is the
    palette written.
  */
  lemma {:induction false} WriteThenRead(vox: VoxData)
    requires 1 <= |vox.models| <= U32_MAX && Fits(vox.models)
    ensures FileHeader(DEFAULT_VERSION)[..4] == MAGIC
    ensures ReadVersion(FileHeader(DEFAULT_VERSION)[4..]) == Ok((DEFAULT_VERSION, []))
    ensures ReadVox(DEFAULT_VERSION, ChildrenOf(vox).children)
         == Trace(EventsOf(DEFAULT_VERSION,
                    Contents(if IsDefault(vox.palette) then None else Some(ReadBackPalette(vox.palette)), vox.models)),
                  Pass)
    ensures ReadBackPalette(vox.palette) == vox.palette <==> vox.palette.colors[0] == DEFAULT_PALETTE.colors[0]
  {
    FileHeaderLayout(DEFAULT_VERSION);
    WriteThenDecode(vox);
    ReadVoxDecodes(DEFAULT_VERSION, ChildrenOf(vox).children);
    assert [vox.palette.colors[0]] + vox.palette.colors[1..] == vox.palette.colors;
    if ReadBackPalette(vox.palette) == vox.palette {
      assert ReadBackPalette(vox.palette).colors[0] == DEFAULT_PALETTE.colors[0];
    }
  }
}
