# VOX codec core, modelled in Dafny

This project models the byte-level core of `vox-format`, a reader and writer
for MagicaVoxel `.vox` files:

- the record codecs of `types.rs`: `Version`, `Vector`, `Voxel`, `Color`,
  `ColorIndex`, the 255-entry on-disk `Palette` laid over the default
  256-entry table, the `MaterialType` byte mapping and the flag-driven
  `Material` decoder;
- `read_vox_into` of `reader.rs`: it sorts the children of the MAIN chunk
  into one optional PACK, every SIZE, every XYZI and one optional RGBA child;
  it rejects a second PACK or RGBA; it checks the model count; and it calls
  the buffer in a fixed order (version, palette, model count, then each
  model's size and voxels);
- `write_file_header`, `main_chunk_writer` and `to_writer` of `writer.rs`:
  they write the "VOX " magic and version, then the MAIN chunk's children:
  PACK when there is more than one model, SIZE and XYZI per model, and RGBA
  when the palette is not the default one.

The chunk framing (headers, lengths, back-patching, the lazy child
iterator) belongs to the `chunk` module, which is not part of this model.
The children of the MAIN chunk are modelled as a sequence of `Chunk(id,
content)` records. The `VoxBuffer` that the reader fills is an `EventLog`
class recording one `Event` per `set_*` call. The output stream of the writer
is a `VoxWriter` class holding the bytes written before the MAIN chunk and
the MAIN chunk's children.

Each imperative operation is a method proved equal to a specification
function of the state before the call (`ReadVoxRun`, `ChildrenWritten`,
`DecodePalette`, ...). The properties are lemmas about those functions. The
reader and writer meet in `RoundTrip.WriteThenRead`: reading what
`to_writer` wrote gives back the models, and also the palette when its entry
0 is the default one.

Files:

- `wrappers.dfy`: Option, Result, Outcome.
- `bytes.dfy`: bytes, i8, u32 and little-endian words.
- `chunk.dfy`: chunk identifiers and records.
- `errors.dfy`: the reader's and writer's error enums.
- `byte_reader.dfy`: reading primitive values from a byte sequence.
- `types.dfy`: the record codecs.
- `sink.dfy`: the buffer as an event log.
- `reader.dfy`: `read_vox_into`.
- `reader_props.dfy`: properties of `read_vox_into`.
- `writer.dfy`: the writer.
- `writer_props.dfy`: properties of the writer.
- `roundtrip.dfy`: the writer followed by the reader.

## Model

| member | source | states |
|---|---|---|
| Types.VersionRoundTrip | vox-format/src/types.rs:45-54 | a version is written as 4 bytes, and reading them back gives the version and leaves the rest of the input |
| Types.VectorRoundTrip | vox-format/src/types.rs:101-114 | a vector is written as 3 bytes, x, y, z, and reads back to itself, leaving the rest |
| Types.ReadVectorExact | vox-format/src/types.rs:101-107 | reading a vector succeeds exactly when at least 3 bytes remain, and otherwise fails with an I/O error; on success, the vector re-encodes to the 3 bytes consumed |
| Types.VoxelRoundTrip | vox-format/src/types.rs:76-87 | a voxel is 4 bytes, the point then the color index, and reads back to itself |
| Types.ReadVoxelExact | vox-format/src/types.rs:76-81 | reading a voxel succeeds exactly when 4 bytes remain, and otherwise fails with an I/O error; it consumes exactly the 4 bytes it re-encodes to |
| Types.ColorRoundTrip | vox-format/src/types.rs:225-244 | a color is 4 bytes in the order r, g, b, a, and reads back to itself |
| Types.ColorToArray | vox-format/src/types.rs:246-250 | the array form of a color has 4 entries |
| Types.ColorFromArrayAsWritten | vox-format/src/types.rs:252-261 | the conversion as written gives a color whose four channels are equal |
| Types.ColorFromArrayAsWrittenLosesChannels | vox-format/src/types.rs:252-261 | the conversion as written does not invert the array form: Color(1,2,3,4) comes back changed |
| Types.ColorArrayRoundTrip | vox-format/src/types.rs:246-261 | with channel i taken from byte i, the two conversions are inverse in both directions |
| Types.IsDefaultEntrywise | vox-format/src/types.rs:147-153 | a palette is the default exactly when `get` agrees with the default palette at every index from 0 to 255 |
| Types.ReadColors | vox-format/src/types.rs:166-168 | a successful read of k colors yields exactly k colors |
| Types.ReadPalette | vox-format/src/types.rs:163-171 | the in-place loop that overwrites entries 1 to 255 of the default table gives exactly the specification decoder's result |
| Types.WritePalette | vox-format/src/types.rs:173-179 | the loop over entries 1 to 255 produces exactly the specification encoding |
| Types.EncodePaletteLayout | vox-format/src/types.rs:173-179 | the encoding is 1020 bytes; entry i (1 to 255) is at bytes 4(i-1) to 4i; entry 0 is never written |
| Types.PaletteRoundTrip | vox-format/src/types.rs:163-179 | reading a written palette gives the default entry 0 followed by the palette's entries 1 to 255, and leaves the rest of the input; the result equals the palette exactly when its entry 0 is the default one |
| Types.DecodedPaletteGet | vox-format/src/types.rs:151-171 | a palette read succeeds exactly when 1020 bytes remain, and otherwise fails with an I/O error; after a read, `get(0)` is the default entry, and `get(i)` (255 included) is the color stored at bytes 4(i-1) to 4i |
| Types.MaterialTypeToByte | vox-format/src/types.rs:374-383 | every material type maps to a byte of at most 3 |
| Types.MaterialTypeConversions | vox-format/src/types.rs:360-383 | `try_from` succeeds exactly on bytes 0 to 3, and inverts the byte mapping in both directions; any other byte fails carrying that same byte |
| Types.MaterialTypeRoundTrip | vox-format/src/types.rs:385-397 | a written material type reads back to itself |
| Types.ReadMaterialTypeCases | vox-format/src/types.rs:385-391 | reading fails with an I/O error on empty input, and with `InvalidMaterial(x)` for a byte x above 3; otherwise it gives the mapped type and consumes one byte |
| Types.ParamsCount | vox-format/src/types.rs:319-339 | the flags select as many parameters as `flags & 127` has set bits, counted bit by bit; so a material record takes 9 + 4·popcount(flags & 127) bytes |
| Types.ReadVersion | vox-format/src/types.rs:46-48 | `Version::read`: one u32 LE; `Types.VersionRoundTrip` states it inverts `Types.EncodeVersion` |
| Types.EncodeVersion | vox-format/src/types.rs:50-53 | `Version::write`: the version as a u32 LE; `Types.VersionRoundTrip` states it is 4 bytes that read back |
| Types.ReadVector | vox-format/src/types.rs:101-107 | `Vector::read`: three signed bytes x, y, z; `Types.ReadVectorExact` states when it succeeds and what it consumes |
| Types.EncodeVector | vox-format/src/types.rs:109-114 | `Vector::write`: the three coordinates as two's-complement bytes; `Types.VectorRoundTrip` states the round trip |
| Types.ReadColorIndex | vox-format/src/types.rs:267-269 | `ColorIndex::read`: one byte; `Types.ColorIndexRoundTrip` states the round trip |
| Types.EncodeColorIndex | vox-format/src/types.rs:271-274 | `ColorIndex::write`: the index byte; `Types.ColorIndexRoundTrip` states the round trip |
| Types.ColorIndexRoundTrip | vox-format/src/types.rs:264-275 | a color index is one byte, any byte including 255, and reads back to itself, leaving the rest |
| Types.ReadVoxel | vox-format/src/types.rs:76-81 | `Voxel::read`: the point, then the color index; `Types.ReadVoxelExact` states when it succeeds and what it consumes |
| Types.EncodeVoxel | vox-format/src/types.rs:83-87 | `Voxel::write`: the point, then the color index; `Types.VoxelRoundTrip` states the layout and round trip |
| Types.ReadColor | vox-format/src/types.rs:226-234 | `Color::read`: bytes r, g, b, a; `Types.ColorRoundTrip` states the round trip |
| Types.EncodeColor | vox-format/src/types.rs:236-243 | `Color::write`: bytes r, g, b, a; `Types.ColorRoundTrip` states the round trip |
| Types.IsDefault | vox-format/src/types.rs:147-149 | `Palette::is_default`: all 256 entries equal the default table's; `Types.IsDefaultEntrywise` states it entry by entry through `get` |
| Types.Get | vox-format/src/types.rs:151-153 | `Palette::get` and the `Index` impl (lines 182-188): entry i of the table, for every byte i; `Types.DecodedPaletteGet` states what it returns after a read |
| Types.DecodePalette | vox-format/src/types.rs:163-171 | `Palette::read`: the default table with entries 1 to 255 read in order; `Types.DecodedPaletteGet` and `Types.PaletteRoundTrip` state its result |
| Types.EncodePalette | vox-format/src/types.rs:173-179 | `Palette::write`: entries 1 to 255 in order; `Types.EncodePaletteLayout` states its layout |
| Types.MaterialTypeTryFrom | vox-format/src/types.rs:360-372 | `TryFrom<u8> for MaterialType`: 0 to 3 map to Diffuse, Metal, Glass, Emissive; `Types.MaterialTypeConversions` states both directions |
| Types.ReadMaterialType | vox-format/src/types.rs:385-391 | `MaterialType::read`: one byte through `try_from`, a bad byte becoming `InvalidMaterial`; `Types.ReadMaterialTypeCases` states every case |
| Types.EncodeMaterialType | vox-format/src/types.rs:393-396 | `MaterialType::write`: the type's byte; `Types.MaterialTypeRoundTrip` states the round trip |
| Types.ReadParams | vox-format/src/types.rs:319-339 | a successful read yields one optional value per parameter slot |
| Types.ReadMaterial | vox-format/src/types.rs:314-353 | `Material::read`: the type byte, the weight, the flags word, then one value per selected parameter; `Types.ReadMaterialLayout` states its layout and every error case |
| Types.ReadParamsLayout | vox-format/src/types.rs:319-339 | the optional parameters succeed exactly when 4 bytes per set flag remain, and otherwise fail with an I/O error; each present parameter is the word at its slot, each absent one is none |
| Types.ReadMaterialLayout | vox-format/src/types.rs:314-353 | reading a material fails with an I/O error on a short header or short parameters, and with `InvalidMaterial` on a bad type byte; otherwise it consumes `MaterialSize(flags)` bytes (9 + 4·popcount(flags & 127), by `Types.ParamsCount`) and holds the type, the weight, the total-power bit and each parameter at its slot |
| Reader.Bucket | vox-format/src/reader.rs:84-104 | one turn of the child loop; `ReaderProperties.BucketStep` states which child is rejected and where each one goes |
| Reader.BucketAll | vox-format/src/reader.rs:82-105 | the child loop over the MAIN children; `ReaderProperties.BucketsContent` states when it succeeds and what the buckets hold |
| Reader.VoxelsRun | vox-format/src/reader.rs:143-147 | the counted voxel loop as a function of the calls made so far; `ReaderProperties.VoxelsRunDecodes` states its calls and outcome |
| Reader.ModelRun | vox-format/src/reader.rs:134-147 | one SIZE/XYZI pair: the size call, the voxel count, the voxels; `ReaderProperties.ModelRunDecodes` states its calls and outcome |
| Reader.ModelsRun | vox-format/src/reader.rs:133-148 | the zipped model loop, stopping at the first failure; `ReaderProperties.ModelsRunOutcome` and `ReaderProperties.ModelsRunEvents` state its outcome and calls |
| Reader.NumModels | vox-format/src/reader.rs:118-121 | the first u32 LE of the PACK content, or 1 without a PACK child; `ReaderProperties.NumModelsCall` states the count delivered |
| Reader.AssembleRun | vox-format/src/reader.rs:107-148 | the palette, the model count, the count check and the models; `ReaderProperties.AssembleRunDecodes` states its calls and outcome |
| Reader.ReadVoxRun | vox-format/src/reader.rs:66-151 | `read_vox_into` on a buffer that already holds calls; `ReaderProperties.ReadVoxRunExtends` states that it only appends |
| Reader.ReadVox | vox-format/src/reader.rs:66-151 | `read_vox_into` on a fresh buffer; `ReaderProperties.ReadVoxDecodes` and `ReaderProperties.CallOrder` state its calls and outcome |
| Sink.EventLog.SetVersion | vox-format/src/reader.rs:72 | the buffer records the version call after the earlier calls |
| Sink.EventLog.SetPalette | vox-format/src/reader.rs:112 | the buffer records the palette call after the earlier calls |
| Sink.EventLog.SetNumModels | vox-format/src/reader.rs:131 | the buffer records the model count call after the earlier calls |
| Sink.EventLog.SetModelSize | vox-format/src/reader.rs:136 | the buffer records the model size call after the earlier calls |
| Sink.EventLog.SetVoxel | vox-format/src/reader.rs:146 | the buffer records the voxel call after the earlier calls |
| Reader.BucketChildren | vox-format/src/reader.rs:77-105 | the child loop over the MAIN children gives exactly the specification's bucketing |
| Reader.ReadVoxelsInto | vox-format/src/reader.rs:140-147 | the counted voxel loop makes exactly the specification's `set_voxel` calls, and ends with its outcome |
| Reader.ReadModelInto | vox-format/src/reader.rs:134-147 | one SIZE/XYZI pair makes exactly the specification's calls and outcome |
| Reader.ReadModelsInto | vox-format/src/reader.rs:133-148 | the loop over zipped SIZE and XYZI children makes exactly the specification's calls and outcome |
| Reader.AssembleInto | vox-format/src/reader.rs:107-148 | the palette, model count, count check and model loop make exactly the specification's calls and outcome |
| Reader.ReadVoxInto | vox-format/src/reader.rs:66-151 | `read_vox_into` makes exactly the calls of `ReadVoxRun` on the buffer and returns its outcome |
| ReaderProperties.BucketStep | vox-format/src/reader.rs:84-104 | one child is accepted exactly unless it is a second PACK or a second RGBA; the child lands in the bucket of its identifier and every other bucket is unchanged |
| ReaderProperties.BucketsContent | vox-format/src/reader.rs:77-105 | the child loop succeeds exactly when there is at most one PACK and at most one RGBA child; it then holds all SIZE and all XYZI children in file order, and the PACK and RGBA child if any |
| ReaderProperties.DuplicatePack | vox-format/src/reader.rs:85-92 | a second PACK child stops the read with `MultiplePackChunks` carrying the first and second PACK; only the version call has been made |
| ReaderProperties.DuplicateRgba | vox-format/src/reader.rs:95-102 | a second RGBA child stops the read with `MultipleRgbaChunks` carrying the first and second RGBA; only the version call has been made |
| ReaderProperties.SkipUnknown | vox-format/src/reader.rs:103 | inserting a child of any other identifier leaves the calls and the result unchanged |
| ReaderProperties.ReadVoxRunExtends | vox-format/src/reader.rs:66-151 | a read appends its calls after whatever the buffer already recorded, independently of it |
| ReaderProperties.DecodeVoxels | vox-format/src/reader.rs:143-147 | a successful read of k voxels yields exactly k voxels |
| ReaderProperties.DecodeVoxelsExact | vox-format/src/reader.rs:143-147 | k voxels read successfully exactly when 4k bytes remain, and otherwise fail with an I/O error; the voxels re-encode to the bytes consumed |
| ReaderProperties.DecodeModels | vox-format/src/reader.rs:133-148 | a successful decode yields one model per SIZE/XYZI pair |
| ReaderProperties.VoxelsRunDecodes | vox-format/src/reader.rs:140-147 | the voxel loop fails exactly when the voxel decode fails, and on success makes one `set_voxel` per decoded voxel, in stored order |
| ReaderProperties.ModelRunDecodes | vox-format/src/reader.rs:134-147 | one model fails exactly when its decode fails, and on success makes `set_model_size` followed by its voxel calls |
| ReaderProperties.ModelsRunOutcome | vox-format/src/reader.rs:133-148 | the model loop fails exactly when decoding the pairs fails, with the same error |
| ReaderProperties.ModelsRunEvents | vox-format/src/reader.rs:133-148 | on success the model loop makes, per model in order, its size call and then its voxel calls |
| ReaderProperties.AssembleRunDecodes | vox-format/src/reader.rs:107-148 | after bucketing, the read fails exactly when decoding the buckets fails; on success it makes the palette call if any, the model count, then the model calls |
| ReaderProperties.ReadVoxDecodes | vox-format/src/reader.rs:66-151 | the whole read succeeds exactly when the children decode, fails with the same error otherwise, and on success makes the calls: version, optional palette, model count, then each model's size and voxels |
| ReaderProperties.VoxelsRunCalls | vox-format/src/reader.rs:143-147 | the voxel loop makes only `set_voxel` calls |
| ReaderProperties.ModelsRunCalls | vox-format/src/reader.rs:133-148 | the model loop makes only model size and voxel calls |
| ReaderProperties.ReadVoxCalls | vox-format/src/reader.rs:70-148 | the calls split into a head (version, optional palette, model count) and model calls; with a duplicate PACK or RGBA only the version call is made; model calls follow the model count call |
| ReaderProperties.CallOrder | vox-format/src/reader.rs:70-148 | the version call comes first; the palette call, if any, comes second; then the model count; every model call comes after the model count call |
| ReaderProperties.PaletteCall | vox-format/src/reader.rs:107-116 | a palette call carries the palette decoded from the single RGBA child, and is made whenever there is one RGBA child of at least 1020 bytes |
| ReaderProperties.NumModelsCall | vox-format/src/reader.rs:118-131 | the model count call carries the first u32 LE of the PACK child, or 1 without one, and that count equals the number of SIZE and of XYZI children |
| ReaderProperties.CountMismatch | vox-format/src/reader.rs:124-130 | a declared count that differs from the number of SIZE or of XYZI children fails with both lists and the count; no model count or model call is made |
| Writer.FileHeader | vox-format/src/writer.rs:103-107 | the magic "VOX ", then the version; `Writer.FileHeaderLayout` states its layout |
| Writer.PackContent | vox-format/src/writer.rs:125-130 | the PACK content, the model count as a u32 LE, or `Overflow` when it does not fit; `WriterProperties.WrittenPack` states what is written |
| Writer.XyziContent | vox-format/src/writer.rs:142-148 | the XYZI content, or `Overflow` when the voxel count does not fit; `Writer.XyziLayout` states its layout |
| Writer.ModelsWritten | vox-format/src/writer.rs:134-149 | the model loop as a function of the children so far; `WriterProperties.ModelsWrittenOk` and `WriterProperties.ModelsWrittenStops` state its result |
| Writer.ChildrenWritten | vox-format/src/writer.rs:121-160 | the closure `to_writer` passes to the MAIN chunk writer; `WriterProperties.WrittenChildren` and `WriterProperties.WriteOutcome` state its result |
| Writer.ChildrenOf | vox-format/src/writer.rs:119-161 | the children `to_writer` writes into a fresh MAIN chunk, and how it ends |
| Writer.VoxWriter.WriteAll | vox-format/src/writer.rs:104 | bytes written before the MAIN chunk are appended to the stream; the children are unchanged |
| Writer.VoxWriter.BeginMain | vox-format/src/writer.rs:116 | opening the MAIN chunk: it has no children yet, and the bytes before it are unchanged |
| Writer.VoxWriter.ChildContentWriter | vox-format/src/writer.rs:125-130 | `child_content_writer`: one more child with the given identifier and content, after the earlier ones |
| Writer.FileHeaderLayout | vox-format/src/writer.rs:103-107 | the file header is 8 bytes: "VOX ", then 4 bytes that read back as the version |
| Writer.XyziLayout | vox-format/src/writer.rs:142-148 | the XYZI content is 4 + 4n bytes: the count n as a u32 LE, then voxel i at bytes 4 + 4i to 8 + 4i |
| Writer.WriteFileHeader | vox-format/src/writer.rs:103-107 | the header bytes are appended to the stream and nothing else changes |
| Writer.EncodeXyzi | vox-format/src/writer.rs:142-148 | the voxel loop gives the XYZI content, or `Overflow` when the voxel count does not fit a u32 |
| Writer.WriteModels | vox-format/src/writer.rs:134-149 | the model loop appends exactly the specification's SIZE and XYZI children and ends with its outcome |
| Writer.WriteChildren | vox-format/src/writer.rs:121-160 | the closure appends exactly the specification's children and ends with its outcome |
| Writer.MainChunkWriter | vox-format/src/writer.rs:109-117 | the file header is written, then the MAIN chunk receives exactly the children of `ChildrenOf`, with its outcome |
| Writer.ToWriter | vox-format/src/writer.rs:119-161 | `to_writer` writes the default version 150 whatever the data, then the children of `ChildrenOf` |
| WriterProperties.ModelChunks | vox-format/src/writer.rs:134-149 | the children of n models are 2n |
| WriterProperties.ModelChunksAt | vox-format/src/writer.rs:134-149 | model i gives the SIZE child at 2i and its XYZI child at 2i + 1 |
| WriterProperties.ModelsWrittenOk | vox-format/src/writer.rs:134-149 | when every voxel count fits a u32, the model loop appends the children of every model and succeeds |
| WriterProperties.ModelsWrittenStops | vox-format/src/writer.rs:134-149 | at the first model whose voxel count does not fit, the loop stops with `Overflow` after that model's SIZE child |
| WriterProperties.ModelsWrittenOutcome | vox-format/src/writer.rs:134-149 | the model loop succeeds exactly when every voxel count fits a u32, and fails with `Overflow` otherwise |
| WriterProperties.WriteOutcome | vox-format/src/writer.rs:119-161 | writing fails with `NoModels` for zero models, fails with `Overflow` when the model count or a voxel count does not fit a u32, and succeeds otherwise |
| WriterProperties.WriteRefusedUpFront | vox-format/src/writer.rs:122-131 | zero models, or a count beyond u32, fails before any child is written |
| WriterProperties.WriteStopsAtOverflow | vox-format/src/writer.rs:134-149 | an oversize model stops the write after the children of the models before it and its own SIZE child |
| WriterProperties.WrittenChildren | vox-format/src/writer.rs:119-161 | on success the children are exactly [PACK?], then SIZE and XYZI per model, then [RGBA?] |
| WriterProperties.WrittenPack | vox-format/src/writer.rs:122-131 | the child count is [n > 1] + 2n + [not default]; the first child is PACK exactly when n > 1, and holds n as a u32 LE |
| WriterProperties.WrittenModels | vox-format/src/writer.rs:134-149 | for every model i, in order, its SIZE child (3 bytes) and XYZI child (4 + 4·len bytes) follow the optional PACK |
| WriterProperties.WrittenModel | vox-format/src/writer.rs:134-149 | model i's SIZE and XYZI children are at positions 2i and 2i + 1 after the optional PACK |
| WriterProperties.WrittenRgba | vox-format/src/writer.rs:151-157 | the last child is RGBA exactly when the palette is not the default; it then holds the 1020-byte palette encoding |
| RoundTrip.DecodeVoxelsRoundTrip | vox-format/src/reader.rs:143-147 | reading back the encoded voxels gives them back, whatever follows |
| RoundTrip.DecodeModelRoundTrip | vox-format/src/reader.rs:134-147 | reading the SIZE and XYZI children that the writer makes for a model gives the model back |
| RoundTrip.DecodeModelsRoundTrip | vox-format/src/reader.rs:133-148 | reading the written SIZE and XYZI children pairwise gives every model back, in order |
| RoundTrip.WrittenSingletons | vox-format/src/writer.rs:119-161 | among the written children, PACK appears once exactly when n > 1 and RGBA once exactly when the palette is not the default |
| RoundTrip.WrittenModelKinds | vox-format/src/writer.rs:134-149 | the written SIZE children and XYZI children are those of each model, in model order |
| RoundTrip.WrittenBuckets | vox-format/src/reader.rs:77-105 | the reader's child loop sorts the written children into PACK, SIZE, XYZI and RGBA buckets without error |
| RoundTrip.WriteThenDecode | vox-format/src/writer.rs:119-161 | decoding the written children gives the models back, and the palette (with the default entry 0) when it is not the default one |
| RoundTrip.WriteThenRead | vox-format/src/reader.rs:66-151 | the header `to_writer` writes holds the magic and reads back as version 150; reading the children it wrote, with that version, succeeds with version 150, the palette if not the default, the model count and every model; the palette comes back unchanged exactly when its entry 0 is the default one |

## Left out

- The `chunk` module is not part of this model: the chunk header layout, the lazy child iterator, bounded content readers, length back-patching, the "VOX " magic and MAIN checks of `read_main_chunk` (`InvalidMagic`, `ExpectedMainChunk`), and the byte offsets in chunk records. The reader starts from the version and the MAIN children, and errors carry the chunk records.
- I/O errors of the underlying stream, of the child iterator and of the writer are not modelled. `Io` errors arise only from reading past the end of a content. The writer's `Io` variant is never produced.
- Writer.WriteChildren: when a child's content fails (`Overflow` for the PACK count or for an XYZI voxel count), the chunk that was opened for it is not recorded; only the children completed before it are kept.
- Writer.ToWriter: the seekable output stream is modelled as header bytes plus MAIN children, and the writer wrappers `to_vec` and `to_file` are left out.
- Writer.MainChunkWriter: it takes the `to_writer` closure built in; `main_chunk_writer` with an arbitrary closure is not modelled.
- The reader wrappers `from_reader`, `from_slice` and `from_file` are left out; they only wrap std I/O.
- The `VoxBuffer` implementations (in the data module, which is not part of this model) are left out. The buffer is the event log of its `set_*` calls. `VoxData` keeps only the models and the palette that `to_writer` reads.
- The `f32` values of materials are kept as their 32-bit words; float semantics are out of scope.
- The default palette's 256 colors (the `default_palette` module is not part of this model) are an opaque constant table.
- `MaterialPalette`, `Palette::iter`, the `Display`/`Debug` impls and the logging calls are left out: they add no behaviour to the codec.
- The encoders duplicated in `writer.rs` (lines 51-101) write the same bytes as those in `types.rs`; one encoder per type is modelled.
- The tests in `reader.rs` and `writer.rs` read files on disk and are left out.
- Reader.ReadVoxInto: `read_vox_into` is one function in the source; it is split here into one method per loop (`BucketChildren`, `AssembleInto`, `ReadModelsInto`, `ReadModelInto`, `ReadVoxelsInto`). The calls and result are the same.
- The Rust `Chunk` also carries its byte offset in the file; the model's chunk records do not, so read errors carry the chunks without positions. `InvalidNumberOfSizeAndXyziChunks` carries both chunk lists and the count, as in the code.

## Findings

| source | as written | input that shows it | evidently intended | confidence | as-written member | corrected member |
|---|---|---|---|---|---|---|
| vox-format/src/types.rs:252-261 | `From<[u8; 4]> for Color` copies byte 0 into all four channels | [1, 2, 3, 4] gives Color(1, 1, 1, 1) instead of Color(1, 2, 3, 4) | channel i takes byte i, so the conversion inverts `From<Color> for [u8; 4]` | not executed | Types.ColorFromArrayAsWrittenLosesChannels | Types.ColorArrayRoundTrip |
