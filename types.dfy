/**
  The basic records of a VOX file and their fixed byte layouts: version,
  vector, voxel, color, color index, palette, material type and material.
  Every decoder reads from the front of a chunk's content and yields the value
  and the bytes that remain; every encoder yields the bytes it writes.
*/
module Types {
  import opened Wrappers
  import opened Bytes
  import opened Errors
  import opened ByteReader

  // ---------------------------------------------------------------- Version

  datatype Version = Version(value: u32)

  /** `Version::default()`. */
  const DEFAULT_VERSION: Version := Version(150)

  function ReadVersion(s: seq<u8>): Result<(Version, seq<u8>), ReadError>
  {
    var n :- ReadU32(s);
    Ok((Version(n.0), n.1))
  }

  function EncodeVersion(v: Version): seq<u8>
  {
    LE32(v.value)
  }

  /** A version is four little-endian bytes and reads back unchanged. */
  lemma {:induction false} VersionRoundTrip(v: Version, rest: seq<u8>)
    ensures |EncodeVersion(v)| == 4
    ensures ReadVersion(EncodeVersion(v) + rest) == Ok((v, rest))
  {
    ReadU32RoundTrip(v.value, rest);
  }

  // ----------------------------------------------------------------- Vector

  /** A signed lattice point, or a model extent. */
  datatype Vector = Vector(x: i8, y: i8, z: i8)

  function ReadVector(s: seq<u8>): Result<(Vector, seq<u8>), ReadError>
  {
    var x :- ReadI8(s);
    var y :- ReadI8(x.1);
    var z :- ReadI8(y.1);
    Ok((Vector(x.0, y.0, z.0), z.1))
  }

  function EncodeVector(v: Vector): seq<u8>
  {
    [I8ToByte(v.x), I8ToByte(v.y), I8ToByte(v.z)]
  }

  /** Three signed bytes x, y, z, read back in the same order. */
  lemma {:induction false} VectorRoundTrip(v: Vector, rest: seq<u8>)
    ensures |EncodeVector(v)| == 3
    ensures ReadVector(EncodeVector(v) + rest) == Ok((v, rest))
  {
    var s := EncodeVector(v) + rest;
    assert s[1..][1..][1..] == rest;
    I8RoundTrip(v.x, 0);
    I8RoundTrip(v.y, 0);
    I8RoundTrip(v.z, 0);
  }

  /** A vector read needs exactly three bytes, and re-encoding it gives them back. */
  lemma {:induction false} ReadVectorExact(s: seq<u8>)
    ensures ReadVector(s).Ok? <==> |s| >= 3
    ensures ReadVector(s).Err? ==> ReadVector(s).error == ReadError.Io
    ensures ReadVector(s).Ok? ==>
      EncodeVector(ReadVector(s).value.0) == s[..3] && ReadVector(s).value.1 == s[3..]
  {
    if |s| >= 3 {
      assert s[1..][1..][1..] == s[3..];
      I8RoundTrip(0, s[0]);
      I8RoundTrip(0, s[1]);
      I8RoundTrip(0, s[2]);
    }
  }

  // ------------------------------------------------------------- ColorIndex

  datatype ColorIndex = ColorIndex(index: u8)

  function ReadColorIndex(s: seq<u8>): Result<(ColorIndex, seq<u8>), ReadError>
  {
    var b :- ReadU8(s);
    Ok((ColorIndex(b.0), b.1))
  }

  function EncodeColorIndex(c: ColorIndex): seq<u8>
  {
    [c.index]
  }

  /** A color index is one byte, any byte including 255, and reads back unchanged. */
  lemma {:induction false} ColorIndexRoundTrip(c: ColorIndex, rest: seq<u8>)
    ensures |EncodeColorIndex(c)| == 1
    ensures ReadColorIndex(EncodeColorIndex(c) + rest) == Ok((c, rest))
  {
    assert (EncodeColorIndex(c) + rest)[1..] == rest;
  }

  // ------------------------------------------------------------------ Voxel

  datatype Voxel = Voxel(point: Vector, colorIndex: ColorIndex)

  /** A model: its extent and its voxels in stored order. */
  datatype Model = Model(size: Vector, voxels: seq<Voxel>)

  function ReadVoxel(s: seq<u8>): Result<(Voxel, seq<u8>), ReadError>
  {
    var p :- ReadVector(s);
    var c :- ReadColorIndex(p.1);
    Ok((Voxel(p.0, c.0), c.1))
  }

  function EncodeVoxel(v: Voxel): seq<u8>
  {
    EncodeVector(v.point) + EncodeColorIndex(v.colorIndex)
  }

  /** A voxel is four bytes, the point then the color index, and reads back unchanged. */
  lemma {:induction false} VoxelRoundTrip(v: Voxel, rest: seq<u8>)
    ensures |EncodeVoxel(v)| == 4
    ensures EncodeVoxel(v)[..3] == EncodeVector(v.point) && EncodeVoxel(v)[3] == v.colorIndex.index
    ensures ReadVoxel(EncodeVoxel(v) + rest) == Ok((v, rest))
  {
    var s := EncodeVoxel(v) + rest;
    assert s == EncodeVector(v.point) + ([v.colorIndex.index] + rest);
    VectorRoundTrip(v.point, [v.colorIndex.index] + rest);
  }

  /** A voxel read needs exactly four bytes, and re-encoding it gives them back. */
  lemma {:induction false} ReadVoxelExact(s: seq<u8>)
    ensures ReadVoxel(s).Ok? <==> |s| >= 4
    ensures ReadVoxel(s).Err? ==> ReadVoxel(s).error == ReadError.Io
    ensures ReadVoxel(s).Ok? ==>
      EncodeVoxel(ReadVoxel(s).value.0) == s[..4] && ReadVoxel(s).value.1 == s[4..]
  {
    ReadVectorExact(s);
    if |s| >= 4 {
      assert s[3..][1..] == s[4..];
    }
  }

  // ------------------------------------------------------------------ Color

  /**
    A palette entry. The channels are read and written in the order r, g, b, a;
    the Rust code doubts this order (it may be stored as ABGR) and the
    model keeps the order as written.
  */
  datatype Color = Color(r: u8, g: u8, b: u8, a: u8)

  function ReadColor(s: seq<u8>): Result<(Color, seq<u8>), ReadError>
  {
    var r :- ReadU8(s);
    var g :- ReadU8(r.1);
    var b :- ReadU8(g.1);
    var a :- ReadU8(b.1);
    Ok((Color(r.0, g.0, b.0, a.0), a.1))
  }

  function EncodeColor(c: Color): seq<u8>
  {
    [c.r, c.g, c.b, c.a]
  }

  /** A color is four bytes r, g, b, a, and reads back unchanged. */
  lemma {:induction false} ColorRoundTrip(c: Color, rest: seq<u8>)
    ensures |EncodeColor(c)| == 4
    ensures ReadColor(EncodeColor(c) + rest) == Ok((c, rest))
  {
    var s := EncodeColor(c) + rest;
    assert s[1..][1..][1..][1..] == rest;
  }

  /** `From<Color> for [u8; 4]`: the channels in the order r, g, b, a. */
  function ColorToArray(c: Color): (a: seq<u8>)
    ensures |a| == 4
  {
    [c.r, c.g, c.b, c.a]
  }

  /** `From<[u8; 4]> for Color` as written: every channel takes byte 0. */
  function ColorFromArrayAsWritten(a: seq<u8>): (c: Color)
    requires |a| == 4
    ensures c.r == c.g == c.b == c.a
  {
    Color(a[0], a[0], a[0], a[0])
  }

  /** The as-written conversion does not invert `ColorToArray`. */
  lemma {:induction false} ColorFromArrayAsWrittenLosesChannels()
    ensures ColorFromArrayAsWritten(ColorToArray(Color(1, 2, 3, 4))) != Color(1, 2, 3, 4)
  {
  }

  /** `From<[u8; 4]> for Color` as intended: channel i takes byte i. */
  function ColorFromArray(a: seq<u8>): Color
    requires |a| == 4
  {
    Color(a[0], a[1], a[2], a[3])
  }

  /** The intended conversion and `ColorToArray` are inverse to each other. */
  lemma {:induction false} ColorArrayRoundTrip(c: Color, a: seq<u8>)
    requires |a| == 4
    ensures ColorFromArray(ColorToArray(c)) == c
    ensures ColorToArray(ColorFromArray(a)) == a
  {
  }

  // ---------------------------------------------------------------- Palette

  type PaletteColors = s: seq<Color> | |s| == 256 witness seq(256, _ => Color(0, 0, 0, 0))

  /** 256 colors addressed by a color index; index 0 is never stored. */
  datatype Palette = Palette(colors: PaletteColors)

  /** The compiled-in default palette; its entries are not part of this model. */
  const DEFAULT_PALETTE: Palette

  /** Number of colors stored in an RGBA chunk (indices 1 to 255). */
  const STORED_COLORS: nat := 255

  predicate IsDefault(p: Palette)
  {
    p.colors == DEFAULT_PALETTE.colors
  }

  /** `Palette::get` and `Index<ColorIndex>`: every index 0..255 is accepted. */
  function Get(p: Palette, i: ColorIndex): Color
  {
    p.colors[i.index]
  }

  /** `is_default` compares all 256 entries, index 0 included. */
  lemma {:induction false} IsDefaultEntrywise(p: Palette)
    ensures IsDefault(p) <==> forall i: u8 :: Get(p, ColorIndex(i)) == Get(DEFAULT_PALETTE, ColorIndex(i))
  {
    if forall i: u8 :: Get(p, ColorIndex(i)) == Get(DEFAULT_PALETTE, ColorIndex(i)) {
      forall k | 0 <= k < 256
        ensures p.colors[k] == DEFAULT_PALETTE.colors[k]
      {
        assert Get(p, ColorIndex(k)) == Get(DEFAULT_PALETTE, ColorIndex(k));
      }
    }
  }

  /** Reads `k` colors one after another. */
  function ReadColors(s: seq<u8>, k: nat): (r: Result<(seq<Color>, seq<u8>), ReadError>)
    ensures r.Ok? ==> |r.value.0| == k
  {
    if k == 0 then Ok(([], s))
    else
      var c :- ReadColor(s);
      var cs :- ReadColors(c.1, k - 1);
      Ok(([c.0] + cs.0, cs.1))
  }

  /** The colors read so far, put in front of what reading the remaining ones yields. */
  function Prepend(cs: seq<Color>, r: Result<(seq<Color>, seq<u8>), ReadError>): Result<(seq<Color>, seq<u8>), ReadError>
  {
    match r
    case Ok(v) => Ok((cs + v.0, v.1))
    case Err(e) => Err(e)
  }

  /** One step of reading colors: a failed color read ends the read with its error. */
  lemma {:induction false} ReadColorsStep(read: seq<Color>, s: seq<u8>, k: nat)
    requires k > 0
    ensures ReadColor(s).Err? ==> Prepend(read, ReadColors(s, k)) == Err(ReadColor(s).error)
    ensures ReadColor(s).Ok? ==>
      Prepend(read, ReadColors(s, k))
      == Prepend(read + [ReadColor(s).value.0], ReadColors(ReadColor(s).value.1, k - 1))
  {
    if ReadColor(s).Ok? {
      var c := ReadColor(s).value;
      match ReadColors(c.1, k - 1)
      case Ok(v) =>
        assert read + ([c.0] + v.0) == read + [c.0] + v.0;
      case Err(_) =>
    }
  }

  /** `Palette::read`: the default table with entries 1..255 replaced by the stored colors. */
  function DecodePalette(s: seq<u8>): Result<(Palette, seq<u8>), ReadError>
  {
    var cs :- ReadColors(s, STORED_COLORS);
    Ok((Palette([DEFAULT_PALETTE.colors[0]] + cs.0), cs.1))
  }

  /** `Palette::write`: the colors at indices 1..255, four bytes each. */
  function EncodePalette(p: Palette): seq<u8>
  {
    Flatten(p.colors[1..], EncodeColor)
  }

  /** The default table with entries 1 .. |read| replaced by the colors read so far. */
  function Overlay(read: seq<Color>): (table: seq<Color>)
    requires |read| <= STORED_COLORS
    ensures |table| == 256
  {
    [DEFAULT_PALETTE.colors[0]] + read + DEFAULT_PALETTE.colors[|read| + 1..]
  }

  /** Overwriting the entry after the colors read so far extends them by one. */
  lemma {:induction false} OverwriteStep(read: seq<Color>, c: Color)
    requires |read| < STORED_COLORS
    ensures Overlay(read)[|read| + 1 := c] == Overlay(read + [c])
  {
    var lhs, rhs := Overlay(read)[|read| + 1 := c], Overlay(read + [c]);
    assert forall j :: 0 <= j < |lhs| ==> lhs[j] == rhs[j];
  }

  lemma {:induction false} ReadColorsStart(s: seq<u8>)
    ensures ReadColors(s, STORED_COLORS) == Prepend([], ReadColors(s, STORED_COLORS))
  {
    match ReadColors(s, STORED_COLORS) {
      case Ok(v) => assert [] + v.0 == v.0;
      case Err(_) =>
    }
  }

  lemma {:induction false} ReadColorsEnd(s: seq<u8>, read: seq<Color>, rest: seq<u8>)
    requires |read| == STORED_COLORS
    requires ReadColors(s, STORED_COLORS) == Prepend(read, ReadColors(rest, 0))
    ensures DecodePalette(s) == Ok((Palette(Overlay(read)), rest))
  {
    assert read + [] == read;
    assert Overlay(read) == [DEFAULT_PALETTE.colors[0]] + read;
  }

  /**
    `Palette::read` as the source runs it: a copy of the default table whose
    entry i + 1 is overwritten by the i-th stored color.
  */
  method ReadPalette(s: seq<u8>) returns (r: Result<(Palette, seq<u8>), ReadError>)
    ensures r == DecodePalette(s)
  {
    var colors := new Color[256](i requires 0 <= i < 256 => DEFAULT_PALETTE.colors[i]);
    var rest := s;
    ghost var read: seq<Color> := [];
    ReadColorsStart(s);
    assert colors[..] == Overlay([]);
    for i := 0 to STORED_COLORS
      invariant |read| == i
      invariant colors[..] == Overlay(read)
      invariant ReadColors(s, STORED_COLORS) == Prepend(read, ReadColors(rest, STORED_COLORS - i))
    {
      var c := ReadColor(rest);
      ReadColorsStep(read, rest, STORED_COLORS - i);
      if c.Err? {
        return Err(c.error);
      }
      colors[i + 1] := c.value.0;
      OverwriteStep(read, c.value.0);
      read := read + [c.value.0];
      rest := c.value.1;
    }
    ReadColorsEnd(s, read, rest);
    r := Ok((Palette(colors[..]), rest));
  }

  /** `Palette::write` as the source runs it: one color after another, from index 1. */
  method WritePalette(p: Palette) returns (out: seq<u8>)
    ensures out == EncodePalette(p)
  {
    out := [];
    for i := 1 to 256
      invariant out == Flatten(p.colors[1..i], EncodeColor)
    {
      FlattenSnoc(p.colors[1..i], p.colors[i], EncodeColor);
      assert p.colors[1..i + 1] == p.colors[1..i] + [p.colors[i]];
      out := out + EncodeColor(p.colors[i]);
    }
    assert p.colors[1..256] == p.colors[1..];
  }

  lemma {:induction false} ReadColorsRoundTrip(cs: seq<Color>, rest: seq<u8>)
    ensures ReadColors(Flatten(cs, EncodeColor) + rest, |cs|) == Ok((cs, rest))
  {
    if cs != [] {
      var tail := Flatten(cs[1..], EncodeColor) + rest;
      assert Flatten(cs, EncodeColor) + rest == EncodeColor(cs[0]) + tail;
      ColorRoundTrip(cs[0], tail);
      ReadColorsRoundTrip(cs[1..], rest);
      assert ReadColors(tail, |cs| - 1) == Ok((cs[1..], rest));
      assert [cs[0]] + cs[1..] == cs;
      assert ReadColors(EncodeColor(cs[0]) + tail, |cs|) == Ok(([cs[0]] + cs[1..], rest));
    } else {
      assert Flatten(cs, EncodeColor) + rest == rest;
    }
  }

  /** The stored palette is 255 colors, 1020 bytes; entry 0 is not among them. */
  lemma {:induction false} EncodePaletteLayout(p: Palette)
    ensures |EncodePalette(p)| == 4 * STORED_COLORS == 1020
    ensures forall i :: 1 <= i < 256 ==>
      EncodePalette(p)[4 * (i - 1)..4 * i] == EncodeColor(p.colors[i])
  {
    forall c ensures |EncodeColor(c)| == 4 { }
    FlattenLength(p.colors[1..], EncodeColor, 4);
    forall i | 1 <= i < 256
      ensures EncodePalette(p)[4 * (i - 1)..4 * i] == EncodeColor(p.colors[i])
    {
      FlattenAt(p.colors[1..], i - 1);
    }
  }

  lemma {:induction false} FlattenAt(cs: seq<Color>, j: nat)
    requires j < |cs|
    ensures |Flatten(cs, EncodeColor)| == 4 * |cs|
    ensures Flatten(cs, EncodeColor)[4 * j..4 * j + 4] == EncodeColor(cs[j])
  {
    forall c ensures |EncodeColor(c)| == 4 { }
    FlattenLength(cs, EncodeColor, 4);
    if j > 0 {
      FlattenAt(cs[1..], j - 1);
      FlattenLength(cs[1..], EncodeColor, 4);
    }
  }

  /**
    Reading a written palette restores every entry except index 0, which
    always comes from the default table: the round trip is exact precisely
    when entry 0 already is the default one.
  */
  lemma {:induction false} PaletteRoundTrip(p: Palette, rest: seq<u8>)
    ensures DecodePalette(EncodePalette(p) + rest).Ok?
    ensures DecodePalette(EncodePalette(p) + rest).value.1 == rest
    ensures DecodePalette(EncodePalette(p) + rest).value.0.colors
         == [DEFAULT_PALETTE.colors[0]] + p.colors[1..]
    ensures DecodePalette(EncodePalette(p) + rest) == Ok((p, rest))
        <==> p.colors[0] == DEFAULT_PALETTE.colors[0]
  {
    ReadColorsRoundTrip(p.colors[1..], rest);
    assert [p.colors[0]] + p.colors[1..] == p.colors;
  }

  /**
    After a successful read, index 0 holds the default entry and index i
    (1 to 255, 255 included) the color stored at bytes 4(i-1) .. 4i.
  */
  lemma {:induction false} DecodedPaletteGet(s: seq<u8>)
    ensures DecodePalette(s).Ok? <==> |s| >= 1020
    ensures DecodePalette(s).Err? ==> DecodePalette(s).error == ReadError.Io
    ensures DecodePalette(s).Ok? ==>
      && Get(DecodePalette(s).value.0, ColorIndex(0)) == DEFAULT_PALETTE.colors[0]
      && DecodePalette(s).value.1 == s[1020..]
      && forall i: u8 :: 1 <= i ==>
           EncodeColor(Get(DecodePalette(s).value.0, ColorIndex(i))) == s[4 * (i - 1)..4 * i]
  {
    if |s| >= 1020 {
      var stored := s[..1020];
      var cs := DecodeColorsAt(stored);
      assert stored + s[1020..] == s;
      ReadColorsRoundTripBytes(stored, s[1020..]);
      EncodePaletteLayout(Palette([DEFAULT_PALETTE.colors[0]] + cs));
    } else {
      ReadColorsShort(s, STORED_COLORS);
    }
  }

  /** The colors that 4k bytes hold, four bytes each. */
  function DecodeColorsAt(b: seq<u8>): (cs: seq<Color>)
    requires |b| % 4 == 0
    ensures |cs| == |b| / 4
    ensures Flatten(cs, EncodeColor) == b
    decreases |b|
  {
    if b == [] then []
    else
      var c := Color(b[0], b[1], b[2], b[3]);
      assert b == EncodeColor(c) + b[4..];
      [c] + DecodeColorsAt(b[4..])
  }

  lemma {:induction false} ReadColorsRoundTripBytes(stored: seq<u8>, rest: seq<u8>)
    requires |stored| == 1020
    ensures ReadColors(stored + rest, STORED_COLORS) == Ok((DecodeColorsAt(stored), rest))
  {
    ReadColorsRoundTrip(DecodeColorsAt(stored), rest);
  }

  lemma {:induction false} ReadColorsShort(s: seq<u8>, k: nat)
    requires |s| < 4 * k
    ensures ReadColors(s, k) == Err(ReadError.Io)
  {
    if |s| >= 4 {
      assert s[1..][1..][1..][1..] == s[4..];
      ReadColorsShort(s[4..], k - 1);
    }
  }

  // ----------------------------------------------------------- MaterialType

  datatype MaterialType = Diffuse | Metal | Glass | Emissive

  /** `TryFrom<u8> for MaterialType`: a failure carries the rejected byte. */
  function MaterialTypeTryFrom(x: u8): Result<MaterialType, u8>
  {
    match x
    case 0 => Ok(Diffuse)
    case 1 => Ok(Metal)
    case 2 => Ok(Glass)
    case 3 => Ok(Emissive)
    case _ => Err(x)
  }

  /** `From<MaterialType> for u8`. */
  function MaterialTypeToByte(t: MaterialType): (b: u8)
    ensures b <= 3
  {
    match t
    case Diffuse => 0
    case Metal => 1
    case Glass => 2
    case Emissive => 3
  }

  /** The two conversions are inverse on 0..3, and every other byte is rejected with itself. */
  lemma {:induction false} MaterialTypeConversions(t: MaterialType, x: u8)
    ensures MaterialTypeTryFrom(MaterialTypeToByte(t)) == Ok(t)
    ensures MaterialTypeTryFrom(x).Ok? <==> x <= 3
    ensures MaterialTypeTryFrom(x).Ok? ==> MaterialTypeToByte(MaterialTypeTryFrom(x).value) == x
    ensures MaterialTypeTryFrom(x).Err? ==> MaterialTypeTryFrom(x).error == x
  {
  }

  /** `MaterialType::read`: one byte; an unknown byte x fails with `InvalidMaterial(x)`. */
  function ReadMaterialType(s: seq<u8>): Result<(MaterialType, seq<u8>), ReadError>
  {
    var b :- ReadU8(s);
    match MaterialTypeTryFrom(b.0)
    case Ok(t) => Ok((t, b.1))
    case Err(x) => Err(InvalidMaterial(x))
  }

  function EncodeMaterialType(t: MaterialType): seq<u8>
  {
    [MaterialTypeToByte(t)]
  }

  lemma {:induction false} MaterialTypeRoundTrip(t: MaterialType, rest: seq<u8>)
    ensures ReadMaterialType(EncodeMaterialType(t) + rest) == Ok((t, rest))
  {
    assert (EncodeMaterialType(t) + rest)[1..] == rest;
  }

  /** Reading a type byte: Io on empty content, `InvalidMaterial(x)` exactly for x > 3. */
  lemma {:induction false} ReadMaterialTypeCases(s: seq<u8>)
    ensures |s| == 0 ==> ReadMaterialType(s) == Err(ReadError.Io)
    ensures |s| > 0 && s[0] > 3 ==> ReadMaterialType(s) == Err(InvalidMaterial(s[0]))
    ensures |s| > 0 && s[0] <= 3 ==>
      ReadMaterialType(s).Ok? && MaterialTypeToByte(ReadMaterialType(s).value.0) == s[0]
      && ReadMaterialType(s).value.1 == s[1..]
  {
  }

  // --------------------------------------------------------------- Material

  /** An f32 treated as its 32 bits; only presence and position matter here. */
  datatype F32 = F32(bits: u32)

  datatype Material = Material(
    ty: MaterialType,
    weight: F32,
    plastic: Option<F32>,
    roughness: Option<F32>,
    specular: Option<F32>,
    ior: Option<F32>,
    attenuation: Option<F32>,
    power: Option<F32>,
    glow: Option<F32>,
    isTotalPower: bool)

  /** `read_f32::<LE>`. */
  function ReadF32(s: seq<u8>): Result<(F32, seq<u8>), ReadError>
  {
    var n :- ReadU32(s);
    Ok((F32(n.0), n.1))
  }

  /** `flags & mask != 0`. */
  predicate HasFlag(flags: u32, mask: bv32)
  {
    (flags as bv32) & mask != 0
  }

  /** Reads an f32 only when `present`; otherwise consumes nothing. */
  function ReadOptionalF32(s: seq<u8>, present: bool): Result<(Option<F32>, seq<u8>), ReadError>
  {
    if present then
      var f :- ReadF32(s);
      Ok((Some(f.0), f.1))
    else Ok((None, s))
  }

  /** The flag bits of the seven optional parameters, in the order they are stored. */
  const PARAM_MASKS: seq<bv32> := [1, 2, 4, 8, 16, 32, 64]

  /** The flag bit of `is_total_power`, which has no stored value. */
  const TOTAL_POWER_MASK: bv32 := 128

  /** For each optional parameter, in stored order, whether the flags select it. */
  function ParamsPresent(flags: u32): (present: seq<bool>)
    ensures |present| == |PARAM_MASKS|
    ensures forall k :: 0 <= k < |PARAM_MASKS| ==> present[k] == HasFlag(flags, PARAM_MASKS[k])
  {
    [HasFlag(flags, 1), HasFlag(flags, 2), HasFlag(flags, 4), HasFlag(flags, 8),
     HasFlag(flags, 16), HasFlag(flags, 32), HasFlag(flags, 64)]
  }

  /** Reads one optional parameter per entry of `present`, in order. */
  function ReadParams(s: seq<u8>, present: seq<bool>): (r: Result<(seq<Option<F32>>, seq<u8>), ReadError>)
    ensures r.Ok? ==> |r.value.0| == |present|
  {
    if present == [] then Ok(([], s))
    else
      var p :- ReadOptionalF32(s, present[0]);
      var ps :- ReadParams(p.1, present[1..]);
      Ok(([p.0] + ps.0, ps.1))
  }

  /**
    `Material::read`: the type byte, the weight, the flags word, then the
    parameters plastic, roughness, specular, ior, attenuation, power and glow
    for bits 1, 2, 4, 8, 16, 32 and 64, in that order.
  */
  function ReadMaterial(s: seq<u8>): Result<(Material, seq<u8>), ReadError>
  {
    var ty :- ReadMaterialType(s);
    var weight :- ReadF32(ty.1);
    var flags :- ReadU32(weight.1);
    var ps :- ReadParams(flags.1, ParamsPresent(flags.0));
    Ok((MaterialOf(ty.0, weight.0, flags.0, ps.0), ps.1))
  }

  /** The material with the given type, weight, flags word and optional parameters. */
  function MaterialOf(ty: MaterialType, weight: F32, flags: u32, p: seq<Option<F32>>): (m: Material)
    requires |p| == 7
    ensures Params(m) == p
    ensures m.isTotalPower == HasFlag(flags, TOTAL_POWER_MASK)
  {
    Material(ty, weight, p[0], p[1], p[2], p[3], p[4], p[5], p[6], HasFlag(flags, TOTAL_POWER_MASK))
  }

  /** The optional parameters of a material, in the order they are stored. */
  function Params(m: Material): seq<Option<F32>>
  {
    [m.plastic, m.roughness, m.specular, m.ior, m.attenuation, m.power, m.glow]
  }

  /** The number of selected parameters. */
  function Count(present: seq<bool>): (n: nat)
    ensures n <= |present|
  {
    if present == [] then 0 else (if present[0] then 1 else 0) + Count(present[1..])
  }

  /** The number of set bits among the `width` low bits of `n`, taken one bit at a time. */
  function PopCount(n: nat, width: nat): nat
  {
    if width == 0 then 0 else n % 2 + PopCount(n / 2, width - 1)
  }

  /** Bytes a material record takes: type, weight, flags, then 4 per selected parameter. */
  function MaterialSize(flags: u32): nat
  {
    9 + 4 * Count(ParamsPresent(flags))
  }

  /**
    The flags select one parameter per set bit of `flags & 127`, so a material
    record takes 9 + 4 popcount(flags & 127) bytes.
  */
  lemma {:induction false} ParamsCount(flags: u32)
    ensures Count(ParamsPresent(flags)) == PopCount(flags, 7)
    ensures MaterialSize(flags) == 9 + 4 * PopCount(flags, 7)
  {
    FlagsPopCount(flags);
    CountSeven(ParamsPresent(flags));
  }

  function BitValue(b: bool): nat
  {
    if b then 1 else 0
  }

  lemma {:induction false} CountSeven(p: seq<bool>)
    requires |p| == 7
    ensures Count(p) == BitValue(p[0]) + BitValue(p[1]) + BitValue(p[2]) + BitValue(p[3])
                      + BitValue(p[4]) + BitValue(p[5]) + BitValue(p[6])
  {
    var t := p[1..];
    assert Count(t[1..][1..][1..][1..][1..]) == BitValue(p[6]);
    assert Count(t[1..][1..][1..][1..]) == BitValue(p[5]) + Count(t[1..][1..][1..][1..][1..]);
    assert Count(t[1..][1..][1..]) == BitValue(p[4]) + Count(t[1..][1..][1..][1..]);
    assert Count(t[1..][1..]) == BitValue(p[3]) + Count(t[1..][1..][1..]);
    assert Count(t[1..]) == BitValue(p[2]) + Count(t[1..][1..]);
    assert Count(t) == BitValue(p[1]) + Count(t[1..]);
  }

  /** The bit masks 1 .. 64 test bits 0 .. 6 of the flags word. */
  lemma {:induction false} FlagBits(flags: u32)
    ensures HasFlag(flags, 1) <==> flags % 2 == 1
    ensures HasFlag(flags, 2) <==> (flags / 2) % 2 == 1
    ensures HasFlag(flags, 4) <==> (flags / 4) % 2 == 1
    ensures HasFlag(flags, 8) <==> (flags / 8) % 2 == 1
    ensures HasFlag(flags, 16) <==> (flags / 16) % 2 == 1
    ensures HasFlag(flags, 32) <==> (flags / 32) % 2 == 1
    ensures HasFlag(flags, 64) <==> (flags / 64) % 2 == 1
  {
  }

  lemma {:induction false} PopCountSeven(n: nat)
    ensures PopCount(n, 7) == n % 2 + (n / 2) % 2 + (n / 4) % 2 + (n / 8) % 2
                            + (n / 16) % 2 + (n / 32) % 2 + (n / 64) % 2
  {
    assert n / 2 / 2 == n / 4 && n / 4 / 2 == n / 8 && n / 8 / 2 == n / 16;
    assert n / 16 / 2 == n / 32 && n / 32 / 2 == n / 64;
    assert PopCount(n / 64, 1) == (n / 64) % 2;
    assert PopCount(n / 32, 2) == (n / 32) % 2 + PopCount(n / 64, 1);
    assert PopCount(n / 16, 3) == (n / 16) % 2 + PopCount(n / 32, 2);
    assert PopCount(n / 8, 4) == (n / 8) % 2 + PopCount(n / 16, 3);
    assert PopCount(n / 4, 5) == (n / 4) % 2 + PopCount(n / 8, 4);
    assert PopCount(n / 2, 6) == (n / 2) % 2 + PopCount(n / 4, 5);
  }

  lemma {:induction false} FlagsPopCount(flags: u32)
    ensures BitValue(HasFlag(flags, 1)) + BitValue(HasFlag(flags, 2)) + BitValue(HasFlag(flags, 4))
          + BitValue(HasFlag(flags, 8)) + BitValue(HasFlag(flags, 16)) + BitValue(HasFlag(flags, 32))
          + BitValue(HasFlag(flags, 64)) == PopCount(flags, 7)
  {
    FlagBits(flags);
    PopCountSeven(flags);
  }

  function F32At(s: seq<u8>, off: nat): F32
    requires off + 4 <= |s|
  {
    F32(FromLE32(s[off..off + 4]))
  }

  /**
    The slot at `off` holds `p`: the f32 stored there when the parameter is
    present (and then the slot lies within `s`), nothing otherwise.
  */
  predicate SlotHolds(s: seq<u8>, off: nat, present: bool, p: Option<F32>)
  {
    if present then off + 4 <= |s| && p == Some(F32At(s, off)) else p == None
  }

  lemma {:induction false} SlotShift(s: seq<u8>, off: nat, present: bool, p: Option<F32>)
    requires |s| >= 4
    requires SlotHolds(s[4..], off, present, p)
    ensures SlotHolds(s, off + 4, present, p)
  {
    if present {
      assert s[4..][off..off + 4] == s[off + 4..off + 8];
    }
  }

  /**
    Reading the optional parameters: each present one takes the next four
    bytes, and the read fails exactly when the content ends first.
  */
  lemma {:induction false} ReadParamsLayout(s: seq<u8>, present: seq<bool>)
    ensures ReadParams(s, present).Ok? <==> |s| >= 4 * Count(present)
    ensures ReadParams(s, present).Err? ==> ReadParams(s, present).error == ReadError.Io
    ensures ReadParams(s, present).Ok? ==>
      && ReadParams(s, present).value.1 == s[4 * Count(present)..]
      && forall j :: 0 <= j < |present| ==>
           SlotHolds(s, 4 * Count(present[..j]), present[j], ReadParams(s, present).value.0[j])
  {
    if present != [] {
      var tail := present[1..];
      if present[0] && |s| < 4 {
        return;
      }
      var t := if present[0] then s[4..] else s;
      if present[0] {
        assert s[..4] == s[0..4];
        assert ReadOptionalF32(s, true) == Ok((Some(F32At(s, 0)), t));
      }
      ReadParamsLayout(t, tail);
      if ReadParams(s, present).Ok? {
        var r := ReadParams(s, present).value;
        var rt := ReadParams(t, tail).value;
        assert r.0 == [if present[0] then Some(F32At(s, 0)) else None] + rt.0 && r.1 == rt.1;
        if present[0] {
          assert t[4 * Count(tail)..] == s[4 * Count(present)..];
        }
        forall j | 0 <= j < |present|
          ensures SlotHolds(s, 4 * Count(present[..j]), present[j], r.0[j])
        {
          if j > 0 {
            assert present[..j] == [present[0]] + tail[..j - 1];
            assert r.0[j] == rt.0[j - 1];
            if present[0] {
              SlotShift(s, 4 * Count(tail[..j - 1]), tail[j - 1], rt.0[j - 1]);
            }
          }
        }
      }
    }
  }

  /** The type byte, the weight and the flags word that open every material record. */
  lemma {:induction false} ReadMaterialHeader(s: seq<u8>)
    requires |s| >= 9 && s[0] <= 3
    ensures ReadMaterialType(s) == Ok((MaterialTypeTryFrom(s[0]).value, s[1..]))
    ensures ReadF32(s[1..]) == Ok((F32At(s, 1), s[5..]))
    ensures ReadU32(s[5..]) == Ok((FromLE32(s[5..9]), s[9..]))
  {
    assert s[1..][..4] == s[1..5] && s[1..][4..] == s[5..];
    assert s[5..][..4] == s[5..9] && s[5..][4..] == s[9..];
  }

  /**
    The layout of a material record: a type byte, a weight, a u32 flags word,
    then one 4-byte value for each of the bits 1, 2, 4, .., 64 that is set, in
    that order. Each optional parameter is present exactly when its bit is
    set, bit 128 gives `is_total_power` and takes no bytes, and the record is
    9 + 4 * popcount(flags & 127) bytes long.
  */
  lemma {:induction false} ReadMaterialLayout(s: seq<u8>)
    ensures |s| == 0 ==> ReadMaterial(s) == Err(ReadError.Io)
    ensures |s| > 0 && s[0] > 3 ==> ReadMaterial(s) == Err(InvalidMaterial(s[0]))
    ensures 0 < |s| < 9 && s[0] <= 3 ==> ReadMaterial(s) == Err(ReadError.Io)
    ensures |s| >= 9 && s[0] <= 3 ==>
      var flags := FromLE32(s[5..9]);
      && (|s| < MaterialSize(flags) ==> ReadMaterial(s) == Err(ReadError.Io))
      && (|s| >= MaterialSize(flags) ==>
            && ReadMaterial(s).Ok?
            && var m := ReadMaterial(s).value.0;
            && ReadMaterial(s).value.1 == s[MaterialSize(flags)..]
            && MaterialTypeToByte(m.ty) == s[0]
            && m.weight == F32At(s, 1)
            && m.isTotalPower == HasFlag(flags, TOTAL_POWER_MASK)
            && forall k :: 0 <= k < 7 ==>
                 SlotHolds(s[9..], 4 * Count(ParamsPresent(flags)[..k]), HasFlag(flags, PARAM_MASKS[k]),
                           Params(m)[k]))
  {
    if 0 < |s| && s[0] <= 3 && |s| < 9 {
      ReadMaterialTruncatedHeader(s);
    }
    if |s| >= 9 && s[0] <= 3 {
      if |s| >= MaterialSize(FromLE32(s[5..9])) {
        ReadMaterialFields(s);
      } else {
        ReadMaterialParams(s);
        ReadParamsLayout(s[9..], ParamsPresent(FromLE32(s[5..9])));
      }
    }
  }

  lemma {:induction false} ReadMaterialFields(s: seq<u8>)
    requires |s| >= 9 && s[0] <= 3 && |s| >= MaterialSize(FromLE32(s[5..9]))
    ensures var flags := FromLE32(s[5..9]);
      && ReadMaterial(s).Ok?
      && var m := ReadMaterial(s).value.0;
      && ReadMaterial(s).value.1 == s[MaterialSize(flags)..]
      && MaterialTypeToByte(m.ty) == s[0]
      && m.weight == F32At(s, 1)
      && m.isTotalPower == HasFlag(flags, TOTAL_POWER_MASK)
      && forall k :: 0 <= k < 7 ==>
           SlotHolds(s[9..], 4 * Count(ParamsPresent(flags)[..k]), HasFlag(flags, PARAM_MASKS[k]), Params(m)[k])
  {
    var flags := FromLE32(s[5..9]);
    var present := ParamsPresent(flags);
    ReadMaterialParams(s);
    ReadParamsLayout(s[9..], present);
    assert s[9..][4 * Count(present)..] == s[MaterialSize(flags)..];
  }

  /** After the 9-byte header, the record is the parameter slots the flags select. */
  lemma {:induction false} ReadMaterialParams(s: seq<u8>)
    requires |s| >= 9 && s[0] <= 3
    ensures var flags := FromLE32(s[5..9]);
      var ps := ReadParams(s[9..], ParamsPresent(flags));
      && (ps.Err? ==> ReadMaterial(s) == Err(ps.error))
      && (ps.Ok? ==>
            ReadMaterial(s) == Ok((MaterialOf(MaterialTypeTryFrom(s[0]).value, F32At(s, 1), flags, ps.value.0), ps.value.1)))
  {
    ReadMaterialHeader(s);
  }

  lemma {:induction false} ReadMaterialTruncatedHeader(s: seq<u8>)
    requires 0 < |s| < 9 && s[0] <= 3
    ensures ReadMaterial(s) == Err(ReadError.Io)
  {
    if |s| >= 5 {
      assert |s[1..][4..]| < 4;
    }
  }
}
