/**
  What `read_vox_into` guarantees, proved about the trace functions of the
  `Reader` module: how the children are sorted, which errors stop the read,
  the order of the buffer calls, and an independent description of the data a
  successful read delivers (`DecodeVox`) that the calls agree with.
*/
module ReaderProperties {
  import opened Wrappers
  import opened Bytes
  import opened Chunk
  import opened Errors
  import opened ByteReader
  import opened Types
  import opened Sink
  import opened Reader

  // ------------------------------------------------------- Children by kind

  /** The children with identifier `id`, in file order. */
  function Only(cs: seq<Chunk>, id: ChunkId): (r: seq<Chunk>)
    ensures |r| <= |cs|
  {
    if cs == [] then [] else (if cs[0].id == id then [cs[0]] else []) + Only(cs[1..], id)
  }

  function OptionSeq(o: Option<Chunk>): seq<Chunk>
  {
    if o.Some? then [o.value] else []
  }

  lemma {:induction false} OnlyAppend(xs: seq<Chunk>, ys: seq<Chunk>, id: ChunkId)
    ensures Only(xs + ys, id) == Only(xs, id) + Only(ys, id)
  {
    if xs != [] {
      assert (xs + ys)[1..] == xs[1..] + ys;
      OnlyAppend(xs[1..], ys, id);
    } else {
      assert xs + ys == ys;
    }
  }

  /** Sorting `xs + ys` is sorting `xs`, then carrying on with `ys`. */
  lemma {:induction false} BucketAllAppend(b: Buckets, xs: seq<Chunk>, ys: seq<Chunk>)
    ensures BucketAll(b, xs + ys)
         == match BucketAll(b, xs)
            case Ok(b') => BucketAll(b', ys)
            case Err(e) => Err(e)
    decreases |xs|
  {
    if xs == [] {
      assert xs + ys == ys;
    } else {
      assert (xs + ys)[0] == xs[0] && (xs + ys)[1..] == xs[1..] + ys;
      var step := Bucket(b, xs[0]);
      if step.Ok? {
        BucketAllAppend(step.value, xs[1..], ys);
      }
    }
  }

  /**
    The child loop succeeds exactly when there is at most one PACK and at most
    one RGBA child; it then holds every SIZE and every XYZI child in file
    order, and the PACK and RGBA child if there is one.
  */
  lemma {:induction false} BucketsContent(cs: seq<Chunk>)
    ensures BucketAll(NO_BUCKETS, cs).Ok? <==> |Only(cs, PACK)| <= 1 && |Only(cs, RGBA)| <= 1
    ensures BucketAll(NO_BUCKETS, cs).Ok? ==>
      var b := BucketAll(NO_BUCKETS, cs).value;
      && b.sizes == Only(cs, SIZE)
      && b.xyzis == Only(cs, XYZI)
      && OptionSeq(b.pack) == Only(cs, PACK)
      && OptionSeq(b.rgba) == Only(cs, RGBA)
    decreases |cs|
  {
    if cs != [] {
      var p, c := cs[..|cs| - 1], cs[|cs| - 1];
      assert cs == p + [c];
      BucketsContent(p);
      assert BucketAll(NO_BUCKETS, cs) == match BucketAll(NO_BUCKETS, p) case Ok(b) => Bucket(b, c) case Err(e) => Err(e) by {
        BucketAllAppend(NO_BUCKETS, p, [c]);
        assert [c][1..] == [];
      }
      OnlyAppend(p, [c], PACK);
      OnlyAppend(p, [c], SIZE);
      OnlyAppend(p, [c], XYZI);
      OnlyAppend(p, [c], RGBA);
      if BucketAll(NO_BUCKETS, p).Ok? {
        BucketStep(BucketAll(NO_BUCKETS, p).value, c);
      }
    }
  }

  /** Filing one child: it fails only on a second PACK or RGBA, and otherwise adds the child to its own kind. */
  lemma {:induction false} BucketStep(b: Buckets, c: Chunk)
    ensures Bucket(b, c).Ok?
        <==> (c.id == PACK ==> b.pack.None?) && (c.id == RGBA ==> b.rgba.None?)
    ensures Bucket(b, c).Ok? ==>
      var b' := Bucket(b, c).value;
      && b'.sizes == b.sizes + Only([c], SIZE)
      && b'.xyzis == b.xyzis + Only([c], XYZI)
      && OptionSeq(b'.pack) == OptionSeq(b.pack) + Only([c], PACK)
      && OptionSeq(b'.rgba) == OptionSeq(b.rgba) + Only([c], RGBA)
  {
    assert [c][1..] == [];
    assert PACK[0] == 0x50 && SIZE[0] == 0x53 && XYZI[0] == 0x58 && RGBA[0] == 0x52;
  }

  // ------------------------------------------------------- Stopping at once

  /**
    A second PACK child stops the read at once with both PACK chunks, after
    the version call and before any palette or model call, whatever follows.
  */
  lemma {:induction false} DuplicatePack(v: Version, cs: seq<Chunk>, i: nat)
    requires i < |cs| && cs[i].id == PACK
    requires |Only(cs[..i], PACK)| == 1 && |Only(cs[..i], RGBA)| <= 1
    ensures ReadVox(v, cs) == Trace([SetVersion(v)], Fail(MultiplePackChunks(Only(cs[..i], PACK)[0], cs[i])))
  {
    assert cs == cs[..i] + ([cs[i]] + cs[i + 1..]);
    BucketAllAppend(NO_BUCKETS, cs[..i], [cs[i]] + cs[i + 1..]);
    BucketsContent(cs[..i]);
  }

  /** A second RGBA child stops the read at once with both RGBA chunks. */
  lemma {:induction false} DuplicateRgba(v: Version, cs: seq<Chunk>, i: nat)
    requires i < |cs| && cs[i].id == RGBA
    requires |Only(cs[..i], PACK)| <= 1 && |Only(cs[..i], RGBA)| == 1
    ensures ReadVox(v, cs) == Trace([SetVersion(v)], Fail(MultipleRgbaChunks(Only(cs[..i], RGBA)[0], cs[i])))
  {
    assert cs == cs[..i] + ([cs[i]] + cs[i + 1..]);
    BucketAllAppend(NO_BUCKETS, cs[..i], [cs[i]] + cs[i + 1..]);
    BucketsContent(cs[..i]);
    assert cs[i].id != PACK by {
      assert RGBA[0] != PACK[0];
    }
  }

  /** A child of any other kind is skipped: adding or removing it changes neither the calls nor the result. */
  lemma {:induction false} SkipUnknown(v: Version, xs: seq<Chunk>, c: Chunk, ys: seq<Chunk>)
    requires !IsKnown(c.id)
    ensures ReadVox(v, xs + [c] + ys) == ReadVox(v, xs + ys)
  {
    assert xs + [c] + ys == xs + ([c] + ys);
    assert ([c] + ys)[0] == c && ([c] + ys)[1..] == ys;
    BucketAllAppend(NO_BUCKETS, xs, [c] + ys);
    BucketAllAppend(NO_BUCKETS, xs, ys);
  }

  // ------------------------------------------------------ Calls made so far

  /** The voxel loop only appends to the calls already made. */
  lemma {:induction false} VoxelsRunFrame(log: seq<Event>, s: seq<u8>, k: nat)
    ensures VoxelsRun(log, s, k) == Trace(log + VoxelsRun([], s, k).events, VoxelsRun([], s, k).outcome)
    decreases k
  {
    if k > 0 && ReadVoxel(s).Ok? {
      var v := ReadVoxel(s).value;
      VoxelsRunFrame(log + [SetVoxel(v.0)], v.1, k - 1);
      VoxelsRunFrame([SetVoxel(v.0)], v.1, k - 1);
      assert (log + [SetVoxel(v.0)]) + VoxelsRun([], v.1, k - 1).events
          == log + ([SetVoxel(v.0)] + VoxelsRun([], v.1, k - 1).events);
      assert [] + [SetVoxel(v.0)] == [SetVoxel(v.0)];
    } else {
      assert log + [] == log;
    }
  }

  lemma {:induction false} ModelRunFrame(log: seq<Event>, size: Chunk, xyzi: Chunk)
    ensures ModelRun(log, size, xyzi) == Trace(log + ModelRun([], size, xyzi).events, ModelRun([], size, xyzi).outcome)
  {
    var v := ReadVector(size.content);
    var n := ReadU32(xyzi.content);
    if v.Ok? && n.Ok? {
      VoxelsRunFrame(log + [SetModelSize(v.value.0)], n.value.1, n.value.0);
      VoxelsRunFrame([SetModelSize(v.value.0)], n.value.1, n.value.0);
      assert (log + [SetModelSize(v.value.0)]) + VoxelsRun([], n.value.1, n.value.0).events
          == log + ([SetModelSize(v.value.0)] + VoxelsRun([], n.value.1, n.value.0).events);
      assert [] + [SetModelSize(v.value.0)] == [SetModelSize(v.value.0)];
    } else if v.Ok? {
      assert [] + [SetModelSize(v.value.0)] == [SetModelSize(v.value.0)];
    } else {
      assert log + [] == log;
    }
  }

  /** The model loop only appends to the calls already made. */
  lemma {:induction false} ModelsRunFrame(log: seq<Event>, sizes: seq<Chunk>, xyzis: seq<Chunk>)
    requires |sizes| == |xyzis|
    ensures ModelsRun(log, sizes, xyzis)
         == Trace(log + ModelsRun([], sizes, xyzis).events, ModelsRun([], sizes, xyzis).outcome)
    decreases |sizes|
  {
    if sizes != [] {
      var t0 := ModelRun([], sizes[0], xyzis[0]);
      assert ModelRun(log, sizes[0], xyzis[0]) == Trace(log + t0.events, t0.outcome) by {
        ModelRunFrame(log, sizes[0], xyzis[0]);
      }
      if t0.outcome.Pass? {
        var r := ModelsRun([], sizes[1..], xyzis[1..]);
        assert ModelsRun(log + t0.events, sizes[1..], xyzis[1..]) == Trace(log + t0.events + r.events, r.outcome) by {
          ModelsRunFrame(log + t0.events, sizes[1..], xyzis[1..]);
        }
        assert ModelsRun(t0.events, sizes[1..], xyzis[1..]) == Trace(t0.events + r.events, r.outcome) by {
          ModelsRunFrame(t0.events, sizes[1..], xyzis[1..]);
        }
        assert log + t0.events + r.events == log + (t0.events + r.events);
      }
    }
  }

  lemma {:induction false} AssembleRunFrame(log: seq<Event>, b: Buckets)
    ensures AssembleRun(log, b) == Trace(log + AssembleRun([], b).events, AssembleRun([], b).outcome)
  {
    var pal := if b.rgba.Some? && DecodePalette(b.rgba.value.content).Ok?
               then [SetPalette(DecodePalette(b.rgba.value.content).value.0)] else [];
    var n := NumModels(b.pack);
    if n.Ok? && n.value == |b.sizes| == |b.xyzis| {
      var head := pal + [SetNumModels(n.value)];
      var r := ModelsRun([], b.sizes, b.xyzis);
      assert ModelsRun(log + head, b.sizes, b.xyzis) == Trace(log + head + r.events, r.outcome) by {
        ModelsRunFrame(log + head, b.sizes, b.xyzis);
      }
      assert ModelsRun(head, b.sizes, b.xyzis) == Trace(head + r.events, r.outcome) by {
        ModelsRunFrame(head, b.sizes, b.xyzis);
      }
      assert log + head + r.events == log + (head + r.events);
      assert log + pal + [SetNumModels(n.value)] == log + head;
    }
    assert [] + pal == pal && log + [] == log;
    if b.rgba.Some? && DecodePalette(b.rgba.value.content).Ok? {
      assert log + pal == log + [SetPalette(DecodePalette(b.rgba.value.content).value.0)];
    }
  }

  /**
    On a buffer that has already received calls, `read_vox_into` makes
    exactly the calls it makes on a fresh buffer, after the earlier ones, and
    ends the same way.
  */
  lemma {:induction false} ReadVoxRunExtends(log: seq<Event>, v: Version, cs: seq<Chunk>)
    ensures ReadVoxRun(log, v, cs) == Trace(log + ReadVox(v, cs).events, ReadVox(v, cs).outcome)
  {
    var b := BucketAll(NO_BUCKETS, cs);
    if b.Ok? {
      AssembleRunFrame(log + [SetVersion(v)], b.value);
      AssembleRunFrame([SetVersion(v)], b.value);
      assert (log + [SetVersion(v)]) + AssembleRun([], b.value).events
          == log + ([SetVersion(v)] + AssembleRun([], b.value).events);
    }
    assert [] + [SetVersion(v)] == [SetVersion(v)];
  }

  // ------------------------------------------------------ The data delivered

  /** What a successful read hands over: the palette if the file has one, and the models. */
  datatype Contents = Contents(palette: Option<Palette>, models: seq<Model>)

  /** `k` voxels, four bytes each, from the front of `s`. */
  function DecodeVoxels(s: seq<u8>, k: nat): (r: Result<seq<Voxel>, ReadError>)
    ensures r.Ok? ==> |r.value| == k
    decreases k
  {
    if k == 0 then Ok([])
    else
      var v :- ReadVoxel(s);
      var vs :- DecodeVoxels(v.1, k - 1);
      Ok([v.0] + vs)
  }

  /**
    `k` voxels decode exactly when there are at least 4k bytes, failing with
    an I/O error otherwise; they are the first 4k bytes, four per voxel, and
    any bytes after them are ignored.
  */
  lemma {:induction false} DecodeVoxelsExact(s: seq<u8>, k: nat)
    ensures DecodeVoxels(s, k).Ok? <==> |s| >= 4 * k
    ensures DecodeVoxels(s, k).Err? ==> DecodeVoxels(s, k).error == ReadError.Io
    ensures DecodeVoxels(s, k).Ok? ==> Flatten(DecodeVoxels(s, k).value, EncodeVoxel) == s[..4 * k]
    decreases k
  {
    if k > 0 {
      ReadVoxelExact(s);
      if |s| >= 4 {
        DecodeVoxelsExact(s[4..], k - 1);
        if |s| >= 4 * k {
          var vs := DecodeVoxels(s, k).value;
          assert vs[1..] == DecodeVoxels(s[4..], k - 1).value;
          assert s[..4 * k] == s[..4] + s[4..][..4 * (k - 1)];
        }
      }
    } else {
      assert s[..0] == [];
    }
  }

  /** One model from a SIZE chunk and the XYZI chunk paired with it. */
  function DecodeModel(size: Chunk, xyzi: Chunk): Result<Model, ReadError>
  {
    var v :- ReadVector(size.content);
    var n :- ReadU32(xyzi.content);
    var vs :- DecodeVoxels(n.1, n.0);
    Ok(Model(v.0, vs))
  }

  function DecodeModels(sizes: seq<Chunk>, xyzis: seq<Chunk>): (r: Result<seq<Model>, ReadError>)
    requires |sizes| == |xyzis|
    ensures r.Ok? ==> |r.value| == |sizes|
    decreases |sizes|
  {
    if sizes == [] then Ok([])
    else
      var m :- DecodeModel(sizes[0], xyzis[0]);
      var ms :- DecodeModels(sizes[1..], xyzis[1..]);
      Ok([m] + ms)
  }

  function DecodeRgba(rgba: Option<Chunk>): Result<Option<Palette>, ReadError>
  {
    match rgba
    case None => Ok(None)
    case Some(c) =>
      var p :- DecodePalette(c.content);
      Ok(Some(p.0))
  }

  /** The contents of a file, independently of the calls that deliver them. */
  function DecodeVox(cs: seq<Chunk>): Result<Contents, ReadError>
  {
    var b :- BucketAll(NO_BUCKETS, cs);
    DecodeBuckets(b)
  }

  function VoxelEvents(vs: seq<Voxel>): seq<Event>
  {
    if vs == [] then [] else [SetVoxel(vs[0])] + VoxelEvents(vs[1..])
  }

  function ModelEvents(ms: seq<Model>): seq<Event>
  {
    if ms == [] then []
    else [SetModelSize(ms[0].size)] + VoxelEvents(ms[0].voxels) + ModelEvents(ms[1..])
  }

  /** The calls that deliver `c`: version, palette if any, model count, then each model's size and voxels. */
  function EventsOf(v: Version, c: Contents): seq<Event>
  {
    [SetVersion(v)] + PaletteEvents(c.palette) + [SetNumModels(|c.models|)]
      + ModelEvents(c.models)
  }

  /** The voxel loop fails exactly when decoding the voxels fails, and otherwise makes one call per voxel. */
  lemma {:induction false} VoxelsRunDecodes(log: seq<Event>, s: seq<u8>, k: nat)
    ensures VoxelsRun(log, s, k).outcome
         == if DecodeVoxels(s, k).Ok? then Pass else Fail(DecodeVoxels(s, k).error)
    ensures DecodeVoxels(s, k).Ok? ==> VoxelsRun(log, s, k).events == log + VoxelEvents(DecodeVoxels(s, k).value)
    decreases k
  {
    if k == 0 {
      assert log + [] == log;
    } else if ReadVoxel(s).Ok? {
      var v := ReadVoxel(s).value;
      VoxelsRunDecodes(log + [SetVoxel(v.0)], v.1, k - 1);
      var rest := DecodeVoxels(v.1, k - 1);
      if rest.Ok? {
        assert ([v.0] + rest.value)[0] == v.0 && ([v.0] + rest.value)[1..] == rest.value;
        assert (log + [SetVoxel(v.0)]) + VoxelEvents(rest.value) == log + ([SetVoxel(v.0)] + VoxelEvents(rest.value));
      }
    }
  }

  lemma {:induction false} ModelRunDecodes(log: seq<Event>, size: Chunk, xyzi: Chunk)
    ensures ModelRun(log, size, xyzi).outcome
         == if DecodeModel(size, xyzi).Ok? then Pass else Fail(DecodeModel(size, xyzi).error)
    ensures DecodeModel(size, xyzi).Ok? ==>
      var m := DecodeModel(size, xyzi).value;
      ModelRun(log, size, xyzi).events == log + ([SetModelSize(m.size)] + VoxelEvents(m.voxels))
  {
    var v := ReadVector(size.content);
    var n := ReadU32(xyzi.content);
    if v.Ok? && n.Ok? {
      VoxelsRunDecodes(log + [SetModelSize(v.value.0)], n.value.1, n.value.0);
      var vs := DecodeVoxels(n.value.1, n.value.0);
      if vs.Ok? {
        assert log + [SetModelSize(v.value.0)] + VoxelEvents(vs.value)
            == log + ([SetModelSize(v.value.0)] + VoxelEvents(vs.value));
      }
    }
  }

  /** The model loop fails exactly when decoding the models fails, with the same error. */
  lemma {:induction false} ModelsRunOutcome(log: seq<Event>, sizes: seq<Chunk>, xyzis: seq<Chunk>)
    requires |sizes| == |xyzis|
    ensures ModelsRun(log, sizes, xyzis).outcome
         == if DecodeModels(sizes, xyzis).Ok? then Pass else Fail(DecodeModels(sizes, xyzis).error)
    decreases |sizes|
  {
    if sizes != [] {
      ModelRunDecodes(log, sizes[0], xyzis[0]);
      if DecodeModel(sizes[0], xyzis[0]).Ok? {
        ModelsRunOutcome(ModelRun(log, sizes[0], xyzis[0]).events, sizes[1..], xyzis[1..]);
      }
    }
  }

  /** One turn of the model loop when the models decode: the first model's calls, then the loop on the rest. */
  lemma {:induction false} ModelsRunStep(log: seq<Event>, sizes: seq<Chunk>, xyzis: seq<Chunk>, ms: seq<Model>)
    requires |sizes| == |xyzis| && sizes != []
    requires DecodeModels(sizes, xyzis) == Ok(ms)
    ensures DecodeModels(sizes[1..], xyzis[1..]) == Ok(ms[1..])
    ensures ModelsRun(log, sizes, xyzis)
         == ModelsRun(log + ([SetModelSize(ms[0].size)] + VoxelEvents(ms[0].voxels)), sizes[1..], xyzis[1..])
  {
    ModelRunDecodes(log, sizes[0], xyzis[0]);
  }

  /** The calls of the models `ms`, appended one model at a time to `log`. */
  function ModelEventsAfter(log: seq<Event>, ms: seq<Model>): seq<Event>
    decreases |ms|
  {
    if ms == [] then log
    else ModelEventsAfter(log + ([SetModelSize(ms[0].size)] + VoxelEvents(ms[0].voxels)), ms[1..])
  }

  lemma {:induction false} ModelEventsAfterIs(log: seq<Event>, ms: seq<Model>)
    ensures ModelEventsAfter(log, ms) == log + ModelEvents(ms)
    decreases |ms|
  {
    if ms == [] {
      assert log + [] == log;
    } else {
      var one := [SetModelSize(ms[0].size)] + VoxelEvents(ms[0].voxels);
      ModelEventsAfterIs(log + one, ms[1..]);
      assert (log + one) + ModelEvents(ms[1..]) == log + (one + ModelEvents(ms[1..]));
    }
  }

  lemma {:induction false} ModelsRunAfter(log: seq<Event>, sizes: seq<Chunk>, xyzis: seq<Chunk>, ms: seq<Model>)
    requires |sizes| == |xyzis|
    requires DecodeModels(sizes, xyzis) == Ok(ms)
    ensures ModelsRun(log, sizes, xyzis).events == ModelEventsAfter(log, ms)
    decreases |sizes|
  {
    if sizes != [] {
      ModelsRunStep(log, sizes, xyzis, ms);
      ModelsRunAfter(log + ([SetModelSize(ms[0].size)] + VoxelEvents(ms[0].voxels)), sizes[1..], xyzis[1..], ms[1..]);
    }
  }

  /** When the models decode, the model loop makes the calls of each model in turn. */
  lemma {:induction false} ModelsRunEvents(log: seq<Event>, sizes: seq<Chunk>, xyzis: seq<Chunk>, ms: seq<Model>)
    requires |sizes| == |xyzis|
    requires DecodeModels(sizes, xyzis) == Ok(ms)
    ensures ModelsRun(log, sizes, xyzis).events == log + ModelEvents(ms)
  {
    ModelsRunAfter(log, sizes, xyzis, ms);
    ModelEventsAfterIs(log, ms);
  }

  /** What follows the child loop, on its own contents. */
  function DecodeBuckets(b: Buckets): Result<Contents, ReadError>
  {
    var palette :- DecodeRgba(b.rgba);
    var n :- NumModels(b.pack);
    if n != |b.sizes| || n != |b.xyzis| then
      Err(InvalidNumberOfSizeAndXyziChunks(b.sizes, b.xyzis, n))
    else
      var ms :- DecodeModels(b.sizes, b.xyzis);
      Ok(Contents(palette, ms))
  }

  function PaletteEvents(palette: Option<Palette>): seq<Event>
  {
    if palette.Some? then [SetPalette(palette.value)] else []
  }

  lemma {:induction false} AssembleRunDecodes(log: seq<Event>, b: Buckets)
    ensures AssembleRun(log, b).outcome == if DecodeBuckets(b).Ok? then Pass else Fail(DecodeBuckets(b).error)
    ensures DecodeBuckets(b).Ok? ==>
      var c := DecodeBuckets(b).value;
      AssembleRun(log, b).events == log + PaletteEvents(c.palette) + [SetNumModels(|c.models|)] + ModelEvents(c.models)
  {
    var pal := DecodeRgba(b.rgba);
    var n := NumModels(b.pack);
    if pal.Ok? && n.Ok? && n.value == |b.sizes| == |b.xyzis| {
      var log1 := log + PaletteEvents(pal.value);
      assert log1 == if b.rgba.Some? then log + [SetPalette(pal.value.value)] else log;
      ModelsRunOutcome(log1 + [SetNumModels(n.value)], b.sizes, b.xyzis);
      if DecodeModels(b.sizes, b.xyzis).Ok? {
        ModelsRunEvents(log1 + [SetNumModels(n.value)], b.sizes, b.xyzis, DecodeModels(b.sizes, b.xyzis).value);
      }
    }
  }

  /**
    `read_vox_into` succeeds exactly when the contents decode, fails with the
    same error otherwise, and on success delivers the decoded contents through
    the calls `EventsOf`.
  */
  lemma {:induction false} ReadVoxDecodes(v: Version, cs: seq<Chunk>)
    ensures ReadVox(v, cs).outcome == if DecodeVox(cs).Ok? then Pass else Fail(DecodeVox(cs).error)
    ensures DecodeVox(cs).Ok? ==> ReadVox(v, cs).events == EventsOf(v, DecodeVox(cs).value)
  {
    var b := BucketAll(NO_BUCKETS, cs);
    assert [] + [SetVersion(v)] == [SetVersion(v)];
    if b.Ok? {
      AssembleRunDecodes([SetVersion(v)], b.value);
    }
  }

  // ------------------------------------------------------ Order of the calls

  /** Where a call belongs: version, palette, model count, then the models. */
  function Phase(e: Event): nat
  {
    match e
    case SetVersion(_) => 0
    case SetPalette(_) => 1
    case SetNumModels(_) => 2
    case SetModelSize(_) => 3
    case SetVoxel(_) => 3
  }

  lemma {:induction false} VoxelsRunCalls(s: seq<u8>, k: nat)
    ensures forall e <- VoxelsRun([], s, k).events :: e.SetVoxel?
    decreases k
  {
    if k > 0 && ReadVoxel(s).Ok? {
      var v := ReadVoxel(s).value;
      VoxelsRunFrame([SetVoxel(v.0)], v.1, k - 1);
      VoxelsRunCalls(v.1, k - 1);
      assert [] + [SetVoxel(v.0)] == [SetVoxel(v.0)];
    }
  }

  lemma {:induction false} ModelsRunCalls(sizes: seq<Chunk>, xyzis: seq<Chunk>)
    requires |sizes| == |xyzis|
    ensures forall e <- ModelsRun([], sizes, xyzis).events :: Phase(e) == 3
    decreases |sizes|
  {
    if sizes != [] {
      var t := ModelRun([], sizes[0], xyzis[0]);
      assert forall e <- t.events :: Phase(e) == 3 by {
        var v := ReadVector(sizes[0].content);
        var n := ReadU32(xyzis[0].content);
        if v.Ok? {
          assert [] + [SetModelSize(v.value.0)] == [SetModelSize(v.value.0)];
        }
        if v.Ok? && n.Ok? {
          VoxelsRunFrame([SetModelSize(v.value.0)], n.value.1, n.value.0);
          VoxelsRunCalls(n.value.1, n.value.0);
        }
      }
      if t.outcome.Pass? {
        ModelsRunFrame(t.events, sizes[1..], xyzis[1..]);
        ModelsRunCalls(sizes[1..], xyzis[1..]);
        assert ModelsRun([], sizes, xyzis) == ModelsRun(t.events, sizes[1..], xyzis[1..]);
      }
    }
  }

  /** The calls before the models: version, the palette if it decodes, the model count if it is read and matches. */
  function HeadCalls(v: Version, b: Buckets): seq<Event>
  {
    var pal := DecodeRgba(b.rgba);
    var n := NumModels(b.pack);
    [SetVersion(v)]
      + (if pal.Ok? then PaletteEvents(pal.value) else [])
      + (if pal.Ok? && n.Ok? && n.value == |b.sizes| == |b.xyzis| then [SetNumModels(n.value)] else [])
  }

  /** The calls split into those before the models and the model calls; there are model calls only after a model count. */
  lemma {:induction false} ReadVoxCalls(v: Version, cs: seq<Chunk>) returns (head: seq<Event>, tail: seq<Event>)
    ensures ReadVox(v, cs).events == head + tail
    ensures BucketAll(NO_BUCKETS, cs).Err? ==> head == [SetVersion(v)] && tail == []
    ensures BucketAll(NO_BUCKETS, cs).Ok? ==> head == HeadCalls(v, BucketAll(NO_BUCKETS, cs).value)
    ensures tail != [] ==> head[|head| - 1].SetNumModels?
    ensures forall e <- tail :: Phase(e) == 3
  {
    var b := BucketAll(NO_BUCKETS, cs);
    assert [] + [SetVersion(v)] == [SetVersion(v)];
    if b.Err? {
      head, tail := [SetVersion(v)], [];
    } else {
      head := HeadCalls(v, b.value);
      var pal := DecodeRgba(b.value.rgba);
      var n := NumModels(b.value.pack);
      if pal.Ok? && n.Ok? && n.value == |b.value.sizes| == |b.value.xyzis| {
        ModelsRunFrame(head, b.value.sizes, b.value.xyzis);
        ModelsRunCalls(b.value.sizes, b.value.xyzis);
        tail := ModelsRun([], b.value.sizes, b.value.xyzis).events;
        assert [SetVersion(v)] + PaletteEvents(pal.value) == if b.value.rgba.Some? then [SetVersion(v), SetPalette(pal.value.value)] else [SetVersion(v)];
      } else {
        tail := [];
        assert head + [] == head;
      }
    }
  }

  /**
    The version call comes first and only once; the palette call, if any,
    comes second; the model count comes once, after them; every model call
    comes after the model count.
  */
  lemma {:induction false} CallOrder(v: Version, cs: seq<Chunk>)
    ensures var calls := ReadVox(v, cs).events;
      && |calls| >= 1 && calls[0] == SetVersion(v)
      && (forall i, j :: 0 <= i < j < |calls| ==> Phase(calls[i]) < Phase(calls[j]) || Phase(calls[i]) == Phase(calls[j]) == 3)
      && (forall j :: 0 <= j < |calls| && calls[j].SetPalette? ==> j == 1)
      && (forall j :: 0 <= j < |calls| && Phase(calls[j]) == 3 ==> exists i :: 0 <= i < j && calls[i].SetNumModels?)
  {
    var head, tail := ReadVoxCalls(v, cs);
    var calls := ReadVox(v, cs).events;
    assert 1 <= |head| <= 3 && head[0] == SetVersion(v);
    assert forall i :: 0 < i < |head| ==> Phase(head[i]) == i || (i == 1 && Phase(head[i]) == 2);
    forall j | 0 <= j < |calls| && Phase(calls[j]) == 3
      ensures exists i :: 0 <= i < j && calls[i].SetNumModels?
    {
      assert j >= |head| && tail != [];
      assert calls[|head| - 1].SetNumModels?;
    }
  }

  // ------------------------------------------------- Palette and model count

  /** What each call before the models carries. */
  lemma {:induction false} HeadCallsAt(v: Version, b: Buckets)
    ensures var h := HeadCalls(v, b);
      && (forall j :: 0 <= j < |h| && h[j].SetPalette? ==>
            j == 1 && b.rgba.Some? && DecodeRgba(b.rgba) == Ok(Some(h[j].palette)))
      && (forall j :: 0 <= j < |h| && h[j].SetNumModels? ==>
            NumModels(b.pack) == Ok(h[j].numModels) && h[j].numModels == |b.sizes| == |b.xyzis|)
      && (b.rgba.Some? && DecodeRgba(b.rgba).Ok? ==> |h| >= 2 && h[1] == SetPalette(DecodeRgba(b.rgba).value.value))
  {
  }

  /** A call at position `j` that is not a model call comes before the models. */
  lemma {:induction false} HeadCall(calls: seq<Event>, head: seq<Event>, tail: seq<Event>, j: nat)
    requires calls == head + tail && (forall e <- tail :: Phase(e) == 3)
    requires j < |calls| && Phase(calls[j]) < 3
    ensures j < |head| && calls[j] == head[j]
  {
  }

  /** The palette call carries the palette decoded from the single RGBA child, and is made whenever that palette decodes. */
  lemma {:induction false} PaletteCall(v: Version, cs: seq<Chunk>)
    ensures var calls := ReadVox(v, cs).events;
      forall j :: 0 <= j < |calls| && calls[j].SetPalette? ==>
        && j == 1 && |Only(cs, PACK)| <= 1 && |Only(cs, RGBA)| == 1
        && DecodePalette(Only(cs, RGBA)[0].content).Ok?
        && calls[j].palette == DecodePalette(Only(cs, RGBA)[0].content).value.0
    ensures var calls := ReadVox(v, cs).events;
      |Only(cs, PACK)| <= 1 && |Only(cs, RGBA)| == 1 && |Only(cs, RGBA)[0].content| >= 1020 ==>
        && DecodePalette(Only(cs, RGBA)[0].content).Ok?
        && |calls| >= 2
        && calls[1] == SetPalette(DecodePalette(Only(cs, RGBA)[0].content).value.0)
  {
    var head, tail := ReadVoxCalls(v, cs);
    var calls := ReadVox(v, cs).events;
    BucketsContent(cs);
    var b := BucketAll(NO_BUCKETS, cs);
    forall j | 0 <= j < |calls| && calls[j].SetPalette?
      ensures && j == 1 && |Only(cs, PACK)| <= 1 && |Only(cs, RGBA)| == 1
              && DecodePalette(Only(cs, RGBA)[0].content).Ok?
              && calls[j].palette == DecodePalette(Only(cs, RGBA)[0].content).value.0
    {
      HeadCall(calls, head, tail, j);
      assert b.Ok?;
      HeadCallsAt(v, b.value);
      assert b.value.rgba == Some(Only(cs, RGBA)[0]);
    }
    if |Only(cs, PACK)| <= 1 && |Only(cs, RGBA)| == 1 && |Only(cs, RGBA)[0].content| >= 1020 {
      assert b.value.rgba == Some(Only(cs, RGBA)[0]);
      DecodedPaletteGet(Only(cs, RGBA)[0].content);
      HeadCallsAt(v, b.value);
    }
  }

  /** The model count a file declares: the first u32 of its PACK child, or 1 without one. */
  function DeclaredModels(cs: seq<Chunk>): nat
    requires Only(cs, PACK) == [] || |Only(cs, PACK)[0].content| >= 4
  {
    if Only(cs, PACK) == [] then 1 else FromLE32(Only(cs, PACK)[0].content[..4])
  }

  /** The model count call carries the declared count, which equals the number of SIZE and of XYZI children. */
  lemma {:induction false} NumModelsCall(v: Version, cs: seq<Chunk>)
    ensures var calls := ReadVox(v, cs).events;
      forall j :: 0 <= j < |calls| && calls[j].SetNumModels? ==>
        && (Only(cs, PACK) == [] || |Only(cs, PACK)[0].content| >= 4)
        && calls[j].numModels == DeclaredModels(cs) == |Only(cs, SIZE)| == |Only(cs, XYZI)|
  {
    var head, tail := ReadVoxCalls(v, cs);
    var calls := ReadVox(v, cs).events;
    BucketsContent(cs);
    var b := BucketAll(NO_BUCKETS, cs);
    forall j | 0 <= j < |calls| && calls[j].SetNumModels?
      ensures && (Only(cs, PACK) == [] || |Only(cs, PACK)[0].content| >= 4)
              && calls[j].numModels == DeclaredModels(cs) == |Only(cs, SIZE)| == |Only(cs, XYZI)|
    {
      HeadCall(calls, head, tail, j);
      assert b.Ok?;
      HeadCallsAt(v, b.value);
      assert b.value.pack == if Only(cs, PACK) == [] then None else Some(Only(cs, PACK)[0]);
    }
  }

  /**
    When the PACK and RGBA children are well formed but the declared count
    differs from the number of SIZE or of XYZI children, the read fails with
    both lists and the count, and no model count or model call is made.
  */
  lemma {:induction false} CountMismatch(v: Version, cs: seq<Chunk>)
    requires |Only(cs, PACK)| <= 1 && |Only(cs, RGBA)| <= 1
    requires Only(cs, PACK) == [] || |Only(cs, PACK)[0].content| >= 4
    requires Only(cs, RGBA) == [] || |Only(cs, RGBA)[0].content| >= 1020
    requires DeclaredModels(cs) != |Only(cs, SIZE)| || DeclaredModels(cs) != |Only(cs, XYZI)|
    ensures ReadVox(v, cs).outcome
         == Fail(InvalidNumberOfSizeAndXyziChunks(Only(cs, SIZE), Only(cs, XYZI), DeclaredModels(cs)))
    ensures forall e <- ReadVox(v, cs).events :: Phase(e) <= 1
  {
    var head, tail := ReadVoxCalls(v, cs);
    BucketsContent(cs);
    var b := BucketAll(NO_BUCKETS, cs).value;
    if b.rgba.Some? {
      DecodedPaletteGet(b.rgba.value.content);
    }
    assert [] + [SetVersion(v)] == [SetVersion(v)];
  }
}
