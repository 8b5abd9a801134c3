/**
  What `to_writer` guarantees, proved about the specification functions of
  the writer: when it fails and with which error, what it leaves behind when
  it fails, and the exact child sequence it writes when it succeeds.
*/
module WriterProperties {
  import opened Wrappers
  import opened Bytes
  import opened Chunk
  import opened Errors
  import opened Types
  import opened Writer

  /** The PACK child: present only for more than one model, holding the count. */
  function PackChunks(n: nat): seq<Chunk>
    requires n <= U32_MAX
  {
    if n > 1 then [Chunk(PACK, LE32(n))] else []
  }

  /** A SIZE child, then an XYZI child, for each model in order. */
  function ModelChunks(ms: seq<Model>): (r: seq<Chunk>)
    requires Fits(ms)
    ensures |r| == 2 * |ms|
  {
    if ms == [] then []
    else
      assert forall i :: 0 <= i < |ms| - 1 ==> ms[1..][i] == ms[i + 1];
      [Chunk(SIZE, EncodeVector(ms[0].size)), Chunk(XYZI, XyziBytes(ms[0].voxels))] + ModelChunks(ms[1..])
  }

  /** The RGBA child: present exactly when the palette is not the default one. */
  function RgbaChunks(p: Palette): seq<Chunk>
  {
    if IsDefault(p) then [] else [Chunk(RGBA, EncodePalette(p))]
  }

  /** Model i occupies children 2i (SIZE, three bytes) and 2i + 1 (XYZI). */
  lemma {:induction false} ModelChunksAt(ms: seq<Model>, i: nat)
    requires Fits(ms) && i < |ms|
    ensures ModelChunks(ms)[2 * i] == Chunk(SIZE, EncodeVector(ms[i].size))
    ensures ModelChunks(ms)[2 * i + 1] == Chunk(XYZI, XyziBytes(ms[i].voxels))
  {
    if i > 0 {
      assert Fits(ms[1..]) by {
        assert forall j :: 0 <= j < |ms| - 1 ==> ms[1..][j] == ms[j + 1];
      }
      ModelChunksAt(ms[1..], i - 1);
    }
  }

  /** Dropping the first model keeps the voxel counts fitting. */
  lemma {:induction false} FitsTail(ms: seq<Model>)
    requires ms != [] && Fits(ms)
    ensures Fits(ms[1..]) && |ms[0].voxels| <= U32_MAX
  {
    assert forall i :: 0 <= i < |ms| - 1 ==> ms[1..][i] == ms[i + 1];
  }

  /** The model loop writes every model's two children when every voxel count fits. */
  lemma {:induction false} ModelsWrittenOk(log: seq<Chunk>, ms: seq<Model>)
    requires Fits(ms)
    ensures ModelsWritten(log, ms) == Written(log + ModelChunks(ms), Pass)
    decreases |ms|
  {
    if ms == [] {
      assert log + [] == log;
    } else {
      assert forall i :: 0 <= i < |ms| - 1 ==> ms[1..][i] == ms[i + 1];
      var log1 := log + [Chunk(SIZE, EncodeVector(ms[0].size))] + [Chunk(XYZI, XyziBytes(ms[0].voxels))];
      ModelsWrittenOk(log1, ms[1..]);
      assert log1 + ModelChunks(ms[1..]) == log + ModelChunks(ms);
    }
  }

  /**
    The first model whose voxel count does not fit stops the loop with
    `Overflow`: the models before it are written whole, its SIZE child is
    written, and nothing after it.
  */
  lemma {:induction false} ModelsWrittenStops(log: seq<Chunk>, ms: seq<Model>, k: nat)
    requires k < |ms| && Fits(ms[..k]) && |ms[k].voxels| > U32_MAX
    ensures ModelsWritten(log, ms)
         == Written(log + ModelChunks(ms[..k]) + [Chunk(SIZE, EncodeVector(ms[k].size))], Fail(Overflow))
    decreases k
  {
    if k == 0 {
      assert ms[..0] == [] && log + [] == log;
    } else {
      assert |ms[0].voxels| <= U32_MAX by {
        assert ms[..k][0] == ms[0];
      }
      var log1 := log + [Chunk(SIZE, EncodeVector(ms[0].size))] + [Chunk(XYZI, XyziBytes(ms[0].voxels))];
      assert ms[1..][..k - 1] == ms[..k][1..];
      assert Fits(ms[1..][..k - 1]) by {
        assert forall j :: 0 <= j < k - 1 ==> ms[..k][1..][j] == ms[..k][j + 1];
      }
      ModelsWrittenStops(log1, ms[1..], k - 1);
      assert ms[..k][0] == ms[0];
      assert log1 + ModelChunks(ms[1..][..k - 1]) == log + ModelChunks(ms[..k]);
    }
  }

  /** The model loop fails exactly when some voxel count does not fit, and then with `Overflow`. */
  lemma {:induction false} ModelsWrittenOutcome(log: seq<Chunk>, ms: seq<Model>)
    ensures ModelsWritten(log, ms).outcome == if Fits(ms) then Pass else Fail(Overflow)
  {
    if Fits(ms) {
      ModelsWrittenOk(log, ms);
    } else {
      var k := FirstOverflow(ms);
      ModelsWrittenStops(log, ms, k);
    }
  }

  /** The index of the first model whose voxel count does not fit. */
  function FirstOverflow(ms: seq<Model>): (k: nat)
    requires !Fits(ms)
    ensures k < |ms| && Fits(ms[..k]) && |ms[k].voxels| > U32_MAX
    decreases |ms|
  {
    if |ms[0].voxels| > U32_MAX then
      assert ms[..0] == [];
      0
    else
      assert !Fits(ms[1..]) by {
        var i :| 0 <= i < |ms| && |ms[i].voxels| > U32_MAX;
        assert ms[1..][i - 1] == ms[i];
      }
      var k := FirstOverflow(ms[1..]);
      assert ms[..k + 1] == [ms[0]] + ms[1..][..k];
      k + 1
  }

  /**
    `to_writer` succeeds exactly when there is at least one model, the model
    count fits a u32 and every voxel count fits a u32; it fails with
    `NoModels` for no models and with `Overflow` otherwise.
  */
  lemma {:induction false} WriteOutcome(vox: VoxData)
    ensures ChildrenOf(vox).outcome
         == if |vox.models| == 0 then Fail(NoModels)
            else if |vox.models| > U32_MAX || !Fits(vox.models) then Fail(Overflow)
            else Pass
  {
    var n := |vox.models|;
    if n == 1 {
      ModelsWrittenOutcome([], vox.models);
    } else if 1 < n <= U32_MAX {
      assert [] + [Chunk(PACK, LE32(n))] == [Chunk(PACK, LE32(n))];
      ModelsWrittenOutcome([Chunk(PACK, LE32(n))], vox.models);
    }
  }

  /** No model, or a model count that does not fit: nothing is written at all. */
  lemma {:induction false} WriteRefusedUpFront(vox: VoxData)
    requires |vox.models| == 0 || |vox.models| > U32_MAX
    ensures ChildrenOf(vox).children == []
    ensures ChildrenOf(vox).outcome == Fail(if |vox.models| == 0 then NoModels else Overflow)
  {
  }

  /** A voxel count that does not fit stops the write after that model's SIZE child: no RGBA child follows. */
  lemma {:induction false} WriteStopsAtOverflow(vox: VoxData, k: nat)
    requires 1 <= |vox.models| <= U32_MAX
    requires k < |vox.models| && Fits(vox.models[..k]) && |vox.models[k].voxels| > U32_MAX
    ensures ChildrenOf(vox)
         == Written(PackChunks(|vox.models|) + ModelChunks(vox.models[..k])
                      + [Chunk(SIZE, EncodeVector(vox.models[k].size))], Fail(Overflow))
  {
    var n := |vox.models|;
    ModelsWrittenStops(PackChunks(n), vox.models, k);
    assert [] + PackChunks(n) == PackChunks(n);
  }

  /**
    On success the children are exactly: PACK with the count if there is more
    than one model, a SIZE and an XYZI child per model in order, and RGBA with
    the palette if it is not the default one.
  */
  lemma {:induction false} WrittenChildren(vox: VoxData)
    requires 1 <= |vox.models| <= U32_MAX && Fits(vox.models)
    ensures ChildrenOf(vox)
         == Written(PackChunks(|vox.models|) + ModelChunks(vox.models) + RgbaChunks(vox.palette), Pass)
  {
    var n := |vox.models|;
    ModelsWrittenOk(PackChunks(n), vox.models);
    assert [] + PackChunks(n) == PackChunks(n);
    if IsDefault(vox.palette) {
      assert PackChunks(n) + ModelChunks(vox.models) + [] == PackChunks(n) + ModelChunks(vox.models);
    }
  }

  /** The number of children, and the PACK child first exactly when there is more than one model. */
  lemma {:induction false} WrittenPack(vox: VoxData)
    requires 1 <= |vox.models| <= U32_MAX && Fits(vox.models)
    ensures var cs := ChildrenOf(vox).children;
      var n := |vox.models|;
      && |cs| == (if n > 1 then 1 else 0) + 2 * n + (if IsDefault(vox.palette) then 0 else 1)
      && (cs[0].id == PACK <==> n > 1)
      && (n > 1 ==> cs[0].content == LE32(n) && FromLE32(cs[0].content) == n)
  {
    var n := |vox.models|;
    WrittenChildren(vox);
    if n > 1 {
      LE32RoundTrip(n);
    } else {
      ModelChunksAt(vox.models, 0);
      assert ChildrenOf(vox).children[0] == ModelChunks(vox.models)[0];
      assert PACK[0] == 0x50 && SIZE[0] == 0x53;
    }
  }

  /** Model i's SIZE child (3 bytes) and XYZI child (4 + 4 * voxels bytes), in model order after the PACK child. */
  lemma {:induction false} WrittenModels(vox: VoxData)
    requires 1 <= |vox.models| <= U32_MAX && Fits(vox.models)
    ensures var cs := ChildrenOf(vox).children;
      var n := |vox.models|;
      var off := if n > 1 then 1 else 0;
      && |cs| == off + 2 * n + (if IsDefault(vox.palette) then 0 else 1)
      && forall i :: 0 <= i < n ==>
        && cs[off + 2 * i] == Chunk(SIZE, EncodeVector(vox.models[i].size))
        && |cs[off + 2 * i].content| == 3
        && cs[off + 2 * i + 1] == Chunk(XYZI, XyziBytes(vox.models[i].voxels))
        && |cs[off + 2 * i + 1].content| == 4 + 4 * |vox.models[i].voxels|
  {
    var n := |vox.models|;
    WrittenChildren(vox);
    forall i | 0 <= i < n {
      WrittenModel(vox, i);
    }
  }

  lemma {:induction false} WrittenModel(vox: VoxData, i: nat)
    requires 1 <= |vox.models| <= U32_MAX && Fits(vox.models) && i < |vox.models|
    ensures var cs := ChildrenOf(vox).children;
      var off := if |vox.models| > 1 then 1 else 0;
      && off + 2 * i + 1 < |cs|
      && cs[off + 2 * i] == Chunk(SIZE, EncodeVector(vox.models[i].size))
      && |cs[off + 2 * i].content| == 3
      && cs[off + 2 * i + 1] == Chunk(XYZI, XyziBytes(vox.models[i].voxels))
      && |cs[off + 2 * i + 1].content| == 4 + 4 * |vox.models[i].voxels|
  {
    var n := |vox.models|;
    WrittenChildren(vox);
    var ms := ModelChunks(vox.models);
    var pk := PackChunks(n);
    var rest := ms + RgbaChunks(vox.palette);
    assert ChildrenOf(vox).children == pk + rest;
    ModelChunksAt(vox.models, i);
    XyziLayout(vox.models[i].voxels);
    assert rest[2 * i] == ms[2 * i] && rest[2 * i + 1] == ms[2 * i + 1];
  }

  /** The last child is RGBA, holding the 1020-byte palette encoding, exactly when the palette is not the default one. */
  lemma {:induction false} WrittenRgba(vox: VoxData)
    requires 1 <= |vox.models| <= U32_MAX && Fits(vox.models)
    ensures var cs := ChildrenOf(vox).children;
      && |cs| >= 2
      && (cs[|cs| - 1].id == RGBA <==> !IsDefault(vox.palette))
      && (!IsDefault(vox.palette) ==> cs[|cs| - 1] == Chunk(RGBA, EncodePalette(vox.palette)))
      && |EncodePalette(vox.palette)| == 1020
  {
    var n := |vox.models|;
    WrittenChildren(vox);
    var cs := ChildrenOf(vox).children;
    EncodePaletteLayout(vox.palette);
    if IsDefault(vox.palette) {
      ModelChunksAt(vox.models, n - 1);
      assert cs[|cs| - 1] == ModelChunks(vox.models)[2 * (n - 1) + 1];
      assert XYZI[0] == 0x58 && RGBA[0] == 0x52;
    }
  }
}
