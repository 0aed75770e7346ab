# openblack core, modelled in Dafny

This project models the deterministic core of openblack, an open-source
reimplementation of the Black & White engine, and proves properties of it.
It covers:

- **LHScriptX binding layer.** The native-type to parameter-tag table, the `"x,y"`
  position parser and its lift onto the terrain, the 106-entry command-signature table,
  the abode and feature lookups with their fallbacks, the villager tribe/role split, and
  the registry handlers for towns, streams, footpaths, villagers and animated statics.
- **LHVM instruction record.** The three enumerations, the five-argument constructor
  and the getters.
- **Asset formats.**
  - The G3D mesh pack: `StrLen`, hexadecimal block ids, the DXT size formula, the
    texture loop and the block walker, and well-formed packs written out byte by byte
    together with what the constructor loads from them.
  - The resource loaders: FourCC mapping, raw texture size detection, L3D extension
    dispatch and the sound header mapping.
  - The land block: the record load and the 16×16 triangulation.
  - The Bullet mesh adapter.
- **Sound bookkeeping.** `SoundPack::LoadFromFile`, which merges sector samples, and
  `SoundHandler`: priorities, the last-pack-wins lookup, load-once sounds and the
  emitter map.
- **Temple structure.** Mesh-name classification, camera-path loading, the
  inside/outside state machine and the room names.

Everything is pure functions over immutable datatypes, with a few methods that follow
the source's loops. Each method is proved equal to its functional definition.

External services are parameters:

- the terrain height (`heightAt`) and `std::stof`;
- the mesh locator's result and the `.cam` file list;
- the SAD file's contents;
- the audio loader's PCM conversion and the audio player (setup, play, update, status);
- the L3D parser and `zip::Inflate`;
- the island's cells and materials.

Floats are opaque `real` values or, where bytes are reinterpreted, 32-bit patterns.
Fixed-width integers are subset types (`u16`, `u32`, `i32`), and every cast between
them is written out.

An operation that throws returns `Err` with the thrown message. Undefined behaviour
becomes a precondition when the surrounding code relies on it not happening: a
`find(...)->second` on a missing key, `ctx[index]` out of range, `out[0]` of an
empty sample, and Bullet vertex records that lie outside `vertex_data`. A read past
the end of a file becomes `Err`.

Modules:

- `Common`: results, options, fixed-width casts, little-endian reads, association lists,
  and `std::map` `emplace` and `operator[]`.
- `Strings`: `std::string` and `std::filesystem::path` operations.
- `ScriptBinding`, `ScriptSignatures`, `FeatureLookups`, `FeatureRegistry`: the
  LHScriptX binding layer.
- `LHVM`: the instruction record.
- `MeshPacks`, `Loaders`, `LandBlocks`, `BulletMeshes`: the asset formats.
- `MeshPackFiles`: mesh-pack files written out byte by byte (a texture block, a run of
  them, a MESHES block, a whole pack) and the round trips through `MeshPacks`.
- `SoundPacks`, `SoundHandling`: sound bookkeeping.
- `Temple`: the temple structure.

## Model

| member | source | states |
|---|---|---|
| Common.U32ToI32 | src/Sound/SoundPack.cpp:57 | `static_cast<int>` of a 32-bit unsigned value agrees with it modulo 2^32 and keeps it exactly when it is below 2^31 |
| Common.I32ToU32 | src/LHScriptX/FeatureScriptCommands.cpp:461 | `static_cast<uint32_t>` of a signed value agrees with it modulo 2^32 and keeps it exactly when it is non-negative |
| Common.EmplaceAll | src/TempleStructure.cpp:130 | `emplace` of each pair in turn: the keys are the old keys plus the given ones, an old key keeps its value, and a new key takes its first given value |
| Common.AssignAll | src/Sound/SoundPack.cpp:93 | `operator[]` assignment of each pair in turn: every given key is present, the last value given for a key wins, and keys never given keep their value |
| Common.DropKeys | src/TempleStructure.cpp:202-223 | dropping the entries of rejected keys keeps every other key's first value and removes the rejected keys |
| Common.EmplaceFirstOfKey | src/TempleStructure.cpp:225 | emplacing the kept entries gives a key the map lacked the value of its first entry |
| Strings.FindFirstOf | src/LHScriptX/ScriptingBindingUtils.cpp:23 | `npos` exactly when the character is absent; otherwise the position of its first occurrence |
| Strings.Substr | src/LHScriptX/ScriptingBindingUtils.cpp:24-25 | throws exactly when the start is past the end; otherwise a prefix of the tail from the start, of at most `count` characters, and the whole tail when the count reaches the end |
| Strings.SizeSucc | src/LHScriptX/ScriptingBindingUtils.cpp:24 | `pos + 1` on a `size_t`: stays in range, and `npos + 1` wraps to 0 |
| Strings.SplitAtFirst | src/LHScriptX/FeatureScriptCommands.cpp:158-160 | with a separator, the string is the first half, the separator and the second half, and the first half holds no separator; without one, both halves are the whole string |
| Strings.SplitAtFirstOfJoin | src/LHScriptX/FeatureScriptCommands.cpp:158-160 | splitting `a + c + b`, where `a` holds no `c`, gives back `(a, b)` |
| Strings.Filename | src/Sound/SoundPack.cpp:45 | the file name holds no separator and is a suffix of the path; a path without a separator is its own file name |
| Strings.LastDot | src/Sound/SoundPack.cpp:47 | the last '.' of a name, or none exactly when the name has no '.' |
| Strings.Extension | src/Sound/SoundPack.cpp:47 | the extension is the name from its last '.' on when that '.' is not the first character and the name is not "..", and empty otherwise (no '.', a leading-only '.', "." or ".."); a non-empty extension is a suffix of the name that starts with its only '.' |
| Strings.Stem | src/Resources/Loaders.cpp:41 | the stem followed by the extension is the name |
| Strings.LowerCase | src/Resources/Loaders.cpp:42 | lower-casing keeps the length and maps every character through the ASCII lower-casing of that character |
| Strings.ToDecimal | src/Resources/Loaders.cpp:139 | `std::to_string` of a size: a non-empty string of decimal digits without a leading zero |
| Strings.DecimalValueOfToDecimal | src/Resources/Loaders.cpp:139 | the decimal spelling reads back as the value |
| ScriptBinding.StaticLookUpBijective | src/LHScriptX/ScriptingBindingUtils.cpp:9-19 | vec3 maps to Vector, string to String, float to Float and int32 to Number, and the table is a bijection between native types and tags |
| ScriptBinding.GetHorizontalPosition | src/LHScriptX/ScriptingBindingUtils.cpp:21-27 | without a comma, both coordinates are parsed from the whole token; a result's coordinates are parses of some text; an error names a token whose parse threw |
| ScriptBinding.HorizontalPositionOfPair | src/LHScriptX/ScriptingBindingUtils.cpp:23-25 | for `xs,ys` with no comma in `xs`: y comes from `ys` and is tried first, so its failure is the one reported; then x comes from `xs` |
| ScriptBinding.NoCommaGivesDiagonal | src/LHScriptX/ScriptingBindingUtils.cpp:23-25 | a token without a comma that parses gives equal x and y |
| ScriptBinding.GetParamValueVec3 | src/LHScriptX/ScriptingBindingUtils.cpp:29-36 | fails exactly when the position parse fails, with the same error; otherwise x is the first number, z the second and y the terrain height at the parsed position |
| ScriptBinding.HorizontalIndependentOfTerrain | src/LHScriptX/ScriptingBindingUtils.cpp:29-36 | two terrains give the same outcome, the same error and the same x and z |
| ScriptSignatures.SignatureNamesDistinct | src/LHScriptX/FeatureScriptCommands.cpp:176-283 | the signature table holds exactly 106 bindings and no two share a name |
| ScriptSignatures.FindIndex | src/LHScriptX/FeatureScriptCommands.cpp:176-283 | a scan by exact name finds the first binding with that name, and finds none exactly when no binding has it |
| ScriptSignatures.Lookup | src/LHScriptX/FeatureScriptCommands.cpp:176-283 | a found signature is in the table under the name asked for; nothing is found exactly when the name is not bound |
| ScriptSignatures.FindIndexOfDistinct | src/LHScriptX/FeatureScriptCommands.cpp:176-283 | in a table without repeated names, the scan for a binding's name finds that binding's position |
| ScriptSignatures.LookupUnambiguous | src/LHScriptX/FeatureScriptCommands.cpp:176-283 | every binding is what a lookup of its own name returns |
| FeatureLookups.AbodeKeysDistinct | src/LHScriptX/FeatureScriptCommands.cpp:49-141 | the abode table has 84 entries and no key twice |
| FeatureLookups.GetAbodeInfo | src/LHScriptX/FeatureScriptCommands.cpp:285-296 | a known key gives a value that the table pairs with it; an unknown key gives TibetanWonder |
| FeatureLookups.GetAbodeInfoOfEntry | src/LHScriptX/FeatureScriptCommands.cpp:285-296 | every table key looks up its own entry's value |
| FeatureLookups.GetAbodeInfoOfMember | src/LHScriptX/FeatureScriptCommands.cpp:285-296 | any (key, value) pair of the table is what the key looks up |
| FeatureLookups.CelticWorkshopIsGraveyard | src/LHScriptX/FeatureScriptCommands.cpp:66-67 | CELTIC_ABODE_WORKSHOP and CELTIC_ABODE_GRAVEYARD both give the Celtic graveyard |
| FeatureLookups.AztecWorkshopIsGraveyard | src/LHScriptX/FeatureScriptCommands.cpp:92-93 | AZTEC_ABODE_WORKSHOP and AZTEC_ABODE_GRAVEYARD both give the Aztec graveyard |
| FeatureLookups.TibetanWonderOnce | src/LHScriptX/FeatureScriptCommands.cpp:103-114 | TibetanWonder is the value of one table entry only, the 60th |
| FeatureLookups.GetAbodeInfoFallback | src/LHScriptX/FeatureScriptCommands.cpp:285-296 | the result is TibetanWonder exactly for unknown keys and for TIBETAN_ABODE_WONDER |
| FeatureLookups.GetFeatureInfo | src/LHScriptX/FeatureScriptCommands.cpp:298-309 | a known key gives a value that the table pairs with it; an unknown key gives Ark |
| FeatureLookups.FeatureTableShape | src/LHScriptX/FeatureScriptCommands.cpp:143-151 | the feature keys are distinct and no key maps to Ark |
| FeatureLookups.GetFeatureInfoFallback | src/LHScriptX/FeatureScriptCommands.cpp:298-309 | Ark is returned exactly for unknown keys, and each known key gets its entry's value |
| FeatureLookups.GetVillagerTribeAndRole | src/LHScriptX/FeatureScriptCommands.cpp:156-172 | succeeds exactly when the text before the first '_' is a tribe and the text after it is a role, and gives their values; without '_', both are looked up with the whole string; a miss throws "Could not recognize either villager tribe or role" |
| FeatureLookups.TribeAndRoleOfJoin | src/LHScriptX/FeatureScriptCommands.cpp:156-172 | `TRIBE_ROLE`, with no '_' in the tribe, succeeds exactly when both names are known, and then gives their values; the role may contain '_' |
| FeatureLookups.AnimatedStaticMeshIdIsLookup | src/LHScriptX/FeatureScriptCommands.cpp:921-933 | the three named types get their table meshes, and the result is Dummy exactly for every other type |
| FeatureRegistry.Spawn | src/LHScriptX/FeatureScriptCommands.cpp:342-345 | creating an entity appends it under the next id, leaves the registries alone and keeps the world valid |
| FeatureRegistry.Insert | src/LHScriptX/FeatureScriptCommands.cpp:347 | `std::map::insert` leaves the map unchanged when the key is present and adds the pair otherwise |
| FeatureRegistry.CreateTown | src/LHScriptX/FeatureScriptCommands.cpp:336-348 | one new entity carries the town; the id is registered to it only if the id is new, so a registered id keeps its entity; the world stays valid |
| FeatureRegistry.SetTownBelief | src/LHScriptX/FeatureScriptCommands.cpp:350-357 | throws exactly for an unregistered town; otherwise only that town's beliefs change, by a non-overwriting insert |
| FeatureRegistry.FirstBeliefSticks | src/LHScriptX/FeatureScriptCommands.cpp:356 | once a player holds a belief, a second SetTownBelief for that player changes nothing |
| FeatureRegistry.CreateStream | src/LHScriptX/FeatureScriptCommands.cpp:767-775 | one new entity carries an empty stream, registered by a non-overwriting insert |
| FeatureRegistry.CreateStreamPoint | src/LHScriptX/FeatureScriptCommands.cpp:777-784 | throws exactly for an unregistered stream; otherwise it appends one node at the given position, linked to the nodes before it, to that stream's nodes, and nothing else changes |
| FeatureRegistry.CreateFootpath | src/LHScriptX/FeatureScriptCommands.cpp:798-805 | one new entity carries an empty footpath, registered by a non-overwriting insert |
| FeatureRegistry.CreateFootpathNode | src/LHScriptX/FeatureScriptCommands.cpp:807-813 | throws exactly for an unregistered footpath; otherwise it appends one node at the end of that footpath, and nothing else changes |
| FeatureRegistry.FootpathNodesInOrder | src/LHScriptX/FeatureScriptCommands.cpp:807-813 | two nodes added one after the other end the footpath in the order they were added |
| FeatureRegistry.NewVillager | src/LHScriptX/FeatureScriptCommands.cpp:454-461 | health and hunger are 100 and the task is IDLE; adult exactly when the age is at least 18; female exactly for housewives; the age is stored as unsigned |
| FeatureRegistry.CreateVillagerPos | src/LHScriptX/FeatureScriptCommands.cpp:447-464 | the transformed entity is always created; the error occurs exactly when the tribe/role split fails, and then no villager is assigned; otherwise the villager is NewVillager of the split |
| FeatureRegistry.CreateAnimatedStatic | src/LHScriptX/FeatureScriptCommands.cpp:914-935 | one new entity with the transform and the type; a known type gets the mesh the table pairs with it, and the mesh is Dummy exactly for types outside the three named ones |
| LHVM.OpcodeValue | components/ScriptLibrary/include/LHVM/VMInstruction.h:34-37 | every opcode's value is at most 30 |
| LHVM.OpcodeOf | components/ScriptLibrary/include/LHVM/VMInstruction.h:34-37 | a raw value decodes to an opcode exactly when it is in 0..30 |
| LHVM.OpcodeOfInverse | components/ScriptLibrary/include/LHVM/VMInstruction.h:34-37 | decoding any value in 0..30 and re-encoding gives it back |
| LHVM.OpcodeRoundTrip | components/ScriptLibrary/include/LHVM/VMInstruction.h:34-37 | encoding then decoding an opcode gives it back |
| LHVM.OpcodeValuesConsecutive | components/ScriptLibrary/include/LHVM/VMInstruction.h:34-37 | END is 0, LINE is 30, no two opcodes share a value, and every value in 0..30 is an opcode |
| LHVM.AccessOf | components/ScriptLibrary/include/LHVM/VMInstruction.h:38 | a raw value decodes to an access mode exactly when it is 0 or 1, and decoding inverts the encoding |
| LHVM.AccessRoundTrip | components/ScriptLibrary/include/LHVM/VMInstruction.h:38 | STACK and VARIABLE survive encoding and decoding |
| LHVM.DataTypeValue | components/ScriptLibrary/include/LHVM/VMInstruction.h:39 | a data type's value is its position in the declaration |
| LHVM.DataTypeOf | components/ScriptLibrary/include/LHVM/VMInstruction.h:39 | a raw value decodes to a data type exactly when it is in 0..7, and decoding inverts the encoding |
| LHVM.DataTypeRoundTrip | components/ScriptLibrary/include/LHVM/VMInstruction.h:39 | every data type, the reserved UNK, UNK2 and UNK4 included, survives encoding and decoding; the reserved ones are 4, 5 and 7 |
| LHVM.GettersReturnConstructorArguments | components/ScriptLibrary/include/LHVM/VMInstruction.h:41-58 | each getter returns its constructor argument, and instructions with equal getter results are equal |
| MeshPacks.StrLen | src/3D/MeshPack.cpp:27-30 | the count is the position of the first NUL |
| MeshPacks.LionheadMagicLengthIsEight | src/3D/MeshPack.cpp:161-162 | the "LiOnHeAd" magic skipped before the first block is 8 bytes |
| MeshPacks.CString | src/3D/MeshPack.cpp:176 | the string of a `char` array is its characters up to the first NUL, or all of them when there is none |
| MeshPacks.HexPrefixLength | src/3D/MeshPack.cpp:183 | `strtoul` consumes the longest prefix of hexadecimal digits |
| MeshPacks.ParseTextureId | src/3D/MeshPack.cpp:181-188 | a failure is the "Invalid block header texture ID" error |
| MeshPacks.ParseTextureIdOfToHex | src/3D/MeshPack.cpp:183 | a block named by the hexadecimal spelling of a 32-bit id parses back to that id |
| MeshPacks.HexValueOfToHex | src/3D/MeshPack.cpp:183 | the value of the hexadecimal spelling of a number is that number |
| MeshPacks.DxtOfFourCC | src/3D/MeshPack.cpp:126-139 | DXT1 exactly for the packed code of "DXT1", DXT3 exactly for that of "DXT3", and the unsupported-format error otherwise |
| MeshPacks.FourCCIsTextInFile | src/3D/MeshPack.cpp:128-132 | the packed codes are the four characters read as a little-endian word, so a "DXT1" header is DXT1 and a "DXT5" header is rejected |
| MeshPacks.BlockCount | src/3D/MeshPack.cpp:141 | `max(1, (n + 3) >> 2)` is the least number of 4-pixel blocks, at least one, that covers `n` pixels |
| MeshPacks.CompressedSize | src/3D/MeshPack.cpp:141 | the size is the block counts of width and height times the bytes per block, so it is a positive multiple of the bytes per block |
| MeshPacks.CompressedSizeBitsPerPixel | src/3D/MeshPack.cpp:141 | for whole-block dimensions, DXT1 stores 4 bits per pixel and DXT3 stores 8 |
| MeshPacks.ReadBlockHeader | src/3D/MeshPack.cpp:66-70 | the 36-byte header gives a name of at most 32 characters read from its bytes, and the size word at byte 32 |
| MeshPacks.NextTextureBlock | src/3D/MeshPack.cpp:199 | the next texture block starts `36 + blockSize` on when that sum fits 32 bits; the step always fits 32 bits |
| MeshPacks.LoadTextureBlock | src/3D/MeshPack.cpp:173-200 | a block loads exactly when it lies in the file, its name parses to the id after the header, that id is in 1..110 and the FourCC is DXT1 or DXT3; otherwise the error is, in the order of the checks, past the end, invalid id, id mismatch, slot out of range or unsupported format; a loaded texture's block name parses to its slot + 1, the format is from the DDS FourCC, the size from the DDS dimensions, and the next block is NextTextureBlock |
| MeshPacks.LoadTextures | src/3D/MeshPack.cpp:173-200 | the loop succeeds exactly when its `n` blocks load, each starting where the previous one's `36 + blockSize` puts it; a failure is one of the texture errors; on success `n` textures in order, each in one of the 110 slots, the first being the first block's |
| MeshPacks.ModelRefs | src/3D/MeshPack.cpp:224-233 | model `k` starts at the block data plus the `k`-th offset after the 8-byte header, and its size is the third word of its mini header |
| MeshPacks.MeshesBlock | src/3D/MeshPack.cpp:208-234 | accepted only with magic "MKJC" and count 626, the magic being checked first, and then all 626 models in table order |
| MeshPacks.BlockModels | src/3D/MeshPack.cpp:208-242 | a MESHES block contributes its 626 models; INFO, LOW and any other block contribute none |
| MeshPacks.NextBlock | src/3D/MeshPack.cpp:244 | the next block starts `36 + blockSize` on, without wrap-around |
| MeshPacks.WalkBlocks | src/3D/MeshPack.cpp:202-245 | the walk collects a whole number of MESHES blocks' models, and nothing once the offset reaches the last byte |
| MeshPacks.WalkBlocksStep | src/3D/MeshPack.cpp:202-245 | one block's models come before the models of the blocks after it |
| MeshPacks.WalkBlocksLoop | src/3D/MeshPack.cpp:202-245 | the appending loop computes WalkBlocks |
| MeshPacks.LoadMeshPack | src/3D/MeshPack.cpp:147-246 | a pack loads exactly when the file is non-empty, the 110 texture blocks after the magic load and the block walk after them succeeds; a failure is a texture or MESHES error; a loaded pack holds the loop's 110 textures and the walk's models, and `_meshCount` 0 |
| MeshPacks.MeshCountAsWrittenIsZero | src/3D/MeshPack.cpp:248-251 | every loaded pack reports 0 meshes, even one that holds models |
| MeshPacks.GetMeshCount | src/3D/MeshPack.cpp:248-251 | the corrected count is the number of loaded models whenever that fits 32 bits |
| MeshPackFiles.HoldsAtName | src/3D/MeshPack.cpp:176 | a 32-byte name field holding a short name and NUL padding reads back as that name |
| MeshPackFiles.LoadTextureBlockOfEncode | src/3D/MeshPack.cpp:173-200 | a texture block written out from its id, FourCC, dimensions and pixels loads back to the upload it describes, and the loop moves on to the byte after it |
| MeshPackFiles.BlockOfRun | src/3D/MeshPack.cpp:173-200 | block `k` of a run written one after another loads to upload `k` and hands on to where block `k + 1` starts |
| MeshPackFiles.LoadTexturesIsLoop | src/3D/MeshPack.cpp:173-200 | the texture loop is the loop of the single-block load, each iteration starting where the last one ended |
| MeshPackFiles.StepLoopOfChain | src/3D/MeshPack.cpp:173-200 | a loop whose every iteration goes from one offset to the next collects their uploads in order and ends at the last offset |
| MeshPackFiles.LoadTexturesOfEncode | src/3D/MeshPack.cpp:173-200 | a run of texture blocks written one after another loads to their uploads in order, and the loop ends right after the last block |
| MeshPackFiles.WalkBlocksOfMeshes | src/3D/MeshPack.cpp:202-245 | a MESHES block that ends the file, whose 626 table entries all point at one mini header, walks to 626 copies of that model |
| MeshPackFiles.LoadMeshPackOfParts | src/3D/MeshPack.cpp:147-246 | a file of the magic, 110 texture blocks and a MESHES block loads as the pack of those blocks' uploads in order and the 626 models, with `_meshCount` 0 |
| MeshPackFiles.MeshCountWitness | src/3D/MeshPack.cpp:248-251 | such a file loads with 626 models, yet the count as written is 0 while the corrected count is 626 |
| MeshPackFiles.SomePackLoads | src/3D/MeshPack.cpp:147-246 | for every mini-header size some file loads as a pack with 626 models |
| MeshPacks.MeshCountCountsModels | src/3D/MeshPack.cpp:248-251 | the corrected count of a loaded pack is its model count, a multiple of 626 |
| Loaders.FormatOfFourCC | src/Resources/Loaders.cpp:82-97 | succeeds exactly for DXT1, DXT3 and DXT5, with a block-compression format; any other code throws "Unsupported compressed texture format" |
| Loaders.FourCCRoundTrip | src/Resources/Loaders.cpp:82-97 | the FourCC table is a bijection between the three codes and the three block-compression formats |
| Loaders.LoadPackTexture | src/Resources/Loaders.cpp:72-103 | succeeds exactly when the FourCC is supported; one layer, the header's dimensions truncated to 16 bits, the data size truncated to 32 bits |
| Loaders.FirstFit | src/Resources/Loaders.cpp:108-136 | a match is a tried resolution whose square, in R8, or three times whose square, in RGB8, is the size; none exactly when no resolution from the start position fits |
| Loaders.FirstFitIsFirst | src/Resources/Loaders.cpp:114-136 | no resolution tried before the matched one fits |
| Loaders.ResolutionsDistinct | src/Resources/Loaders.cpp:108 | no resolution is listed twice |
| Loaders.RawTextureSearch | src/Resources/Loaders.cpp:105-140 | the search loop finds a match exactly when FirstFit does, and then ends with its width and format |
| Loaders.LoadRawTexture | src/Resources/Loaders.cpp:105-147 | succeeds exactly when a resolution fits, and otherwise throws the "Ambiguous size and format" message ending in the byte count; the texture is square, with a listed side, width × height × (1 or 3) bytes, named "raw/" + stem |
| Loaders.RawSizesUnambiguous | src/Resources/Loaders.cpp:108-135 | the twelve accepted byte counts are pairwise distinct, so at most one resolution and format fit any size |
| Loaders.LoadL3DFromBuffer | src/Resources/Loaders.cpp:27-37 | succeeds exactly when the parser accepts the buffer |
| Loaders.LoadL3DFromDisk | src/Resources/Loaders.cpp:39-70 | named after the stem; ".l3d" succeeds exactly when the file parses; ".zzz" succeeds exactly when the inflated remainder after the 4-byte size parses; any other extension gives an unloaded mesh |
| Loaders.FilenameOfLowerCase | src/Resources/Loaders.cpp:41-42 | lower-casing commutes with taking the file name |
| Loaders.ExtensionOfLowerCase | src/Resources/Loaders.cpp:42 | lower-casing commutes with taking the extension |
| Loaders.L3DKindIgnoresCase | src/Resources/Loaders.cpp:41-44 | the dispatch ignores the case of the path |
| Loaders.LoadSound | src/Resources/Loaders.cpp:181-197 | the name is the header name's file name; bit rate 0, volume 1; priority, pitch, deviation and loop type copied; sample rate cast to `int` |
| Loaders.LoadSoundAgreesWithPack | src/Resources/Loaders.cpp:185-194 | the loader and the sound pack give a sample the same key, priority, sample rate, pitch, deviation and loop type |
| LandBlocks.Load | src/3D/LandBlock.cpp:77-92 | fails exactly when the size differs from the 2520-byte record; otherwise the 289 cells, the index, the map position bits and the block position as `int` are those of the record |
| LandBlocks.LoadOfEncode | src/3D/LandBlock.cpp:77-92 | loading a record written from a block gives back the block |
| LandBlocks.CornerOrder | src/3D/LandBlock.cpp:163-190 | each cell yields six vertices |
| LandBlocks.TrianglesShareDiagonal | src/3D/LandBlock.cpp:161-190 | the two triangles share the TL–BR diagonal when the cell is unsplit and the BL–TR one when it is split, and together they cover the four corners |
| LandBlocks.SameWinding | src/3D/LandBlock.cpp:162-190 | all four triangle shapes wind the same way |
| LandBlocks.WeightsArePermutation | src/3D/LandBlock.cpp:167-189 | each triangle's three weights are the three unit vectors in some order |
| LandBlocks.WeightPicksOwnMaterial | src/3D/LandBlock.cpp:153-189 | a vertex's unit weight selects its own corner's material among its triangle's three |
| LandBlocks.CellVertexAtCorner | src/3D/LandBlock.cpp:135-189 | each vertex sits at `(x+dx)·CellSize, altitude·HeightUnit, (z+dz)·CellSize` of its corner cell, with that cell's light and alpha and its own corner's material |
| LandBlocks.VerticesOf | src/3D/LandBlock.cpp:131-133 | the first `n` cells visited give `6n` vertices |
| LandBlocks.VerticesOfNext | src/3D/LandBlock.cpp:131-133 | cell number `16x + z` is visited after the cells before it, x outer and z inner |
| LandBlocks.BuildVertexList | src/3D/LandBlock.cpp:114-195 | the loop emits the 256 cells' vertices, 1536 in all |
| LandBlocks.BuildColumn | src/3D/LandBlock.cpp:133-191 | the inner loop appends the 16 cells of one column |
| LandBlocks.VertexOfCell | src/3D/LandBlock.cpp:131-190 | cell `(x, z)`'s vertices are the six from `6·(16x + z)` |
| BulletMeshes.NewMeshInterface | src/Dynamics/LandBlockBulletMeshInterface.h:38-50 | `vertex_count / stride` vertices and indices, vertex `i` being the three floats at byte `i·stride` and index `i` being `i`; the loop never ends exactly when the count exceeds 65535 |
| BulletMeshes.Construct | src/Dynamics/LandBlockBulletMeshInterface.h:42-49 | the loop with its `uint16_t` counter builds what NewMeshInterface describes, vertex `i` from byte `i·stride` |
| BulletMeshes.ConstructedIsValid | src/Dynamics/LandBlockBulletMeshInterface.h:38-50 | a constructed interface has as many indices as vertices, at most 65535, with identity indices |
| BulletMeshes.GetLockedReadOnlyVertexIndexBase | src/Dynamics/LandBlockBulletMeshInterface.h:64-77 | the lock reports the arrays, float and short types, stride 12, index stride 6, and `numverts / 3` faces rounded down |
| BulletMeshes.FacesAreConsecutiveTriples | src/Dynamics/LandBlockBulletMeshInterface.h:73-75 | face `f` is vertices `3f`, `3f+1`, `3f+2`, all below `numverts` |
| BulletMeshes.NoOpsChangeNothing | src/Dynamics/LandBlockBulletMeshInterface.h:57-91 | any sequence of writable locks, unlocks and preallocations leaves the interface, the read-only lock and the single subpart as they were |
| BulletMeshes.LandBlockFaces | src/Dynamics/LandBlockBulletMeshInterface.h:38-77 | a land block's 1536 vertices make 512 faces that use every vertex |
| SoundPacks.PlainSound | src/Sound/SoundPack.cpp:76-92 | a non-sector sound is keyed by its file name, unloaded and unmerged, with 0 sectors, length -1 and an unknown format |
| SoundPacks.FirstSector | src/Sound/SoundPack.cpp:53-68 | the first sector opens a merged sound keyed by the SAD file's name, counting one sector, with the sample's metadata |
| SoundPacks.Classify | src/Sound/SoundPack.cpp:45-48 | an entry is a sector exactly when its file name's extension is ".mpg" |
| SoundPacks.MergedSnoc | src/Sound/SoundPack.cpp:51-74 | a plain entry leaves the merged sound alone; the first sector opens it; a later sector appends its bytes and counts itself |
| SoundPacks.MergedIsConcatenationOfSectors | src/Sound/SoundPack.cpp:51-74 | a merged sound exists exactly when there is a sector; its bytes are the sectors' data concatenated in order, it counts the sectors, and its metadata is the first sector's |
| SoundPacks.PlainEntries | src/Sound/SoundPack.cpp:76-94 | every non-sector sample contributes its file name and sound |
| SoundPacks.StoreEntries | src/Sound/SoundPack.cpp:43-101 | the sound pack is music exactly when a sector was seen; the merged sound is stored under the file name; keys are the old ones, the plain samples' names and the merged key; untouched keys keep their sound |
| SoundPacks.LoadFromFile | src/Sound/SoundPack.cpp:20-105 | nothing changes when the file cannot be opened; otherwise the sound pack is named after the SAD name, or the file name when that is empty, and is music exactly when some sample is a sector |
| SoundPacks.LastPlainSampleWins | src/Sound/SoundPack.cpp:93-101 | a plain sound is the last plain sample with its name, unless a merged sound took the same key |
| SoundPacks.StoreEntriesLoop | src/Sound/SoundPack.cpp:43-101 | the source's single pass followed by the merged store computes StoreEntries |
| SoundPacks.LoadFromFileLoop | src/Sound/SoundPack.cpp:20-101 | the procedure computes LoadFromFile |
| SoundHandling.AddSoundPriority | src/Sound/SoundHandler.cpp:136-139 | the name gets the number of names known before the call; other names are unchanged; the table grows only for a new name |
| SoundHandling.PrioritiesAreRanks | src/Sound/SoundHandler.cpp:22-31 | adding new, distinct names numbers them consecutively from the current count and keeps the known ones |
| SoundHandling.NewHandler | src/Sound/SoundHandler.cpp:22-32 | a new handler is valid, with no packs, lookups or emitters |
| SoundHandling.ConstructorPriorities | src/Sound/SoundHandler.cpp:24-30 | the constructor gives CRITICAL 0, GUI 1, …, GAMEPLAY_AMBIENT 6, and knows no other name |
| SoundHandling.GetSoundPriority | src/Sound/SoundHandler.cpp:141-144 | a known name's priority leaves the handler unchanged; an unknown name is inserted with 0 and gives 0 |
| SoundHandling.GetSoundPriorityStable | src/Sound/SoundHandler.cpp:141-144 | asking twice gives the same answer, and the second call changes nothing |
| SoundHandling.RegisterSoundPack | src/Sound/SoundHandler.cpp:34-39 | the sound pack is appended; each of its ids now resolves to it; every other id keeps its owner |
| SoundHandling.RegisterKeepsValid | src/Sound/SoundHandler.cpp:34-39 | each id stays owned by the last registered pack that holds it |
| SoundHandling.LastRegisteredPackWins | src/Sound/SoundHandler.cpp:38 | an id held by two packs resolves to the later one |
| SoundHandling.PackOf | src/Sound/SoundHandler.cpp:82 | an id resolves to a registered pack that holds it |
| SoundHandling.StoreSound | src/Sound/SoundHandler.cpp:86-87 | writing through the owner changes that pack's entry for the id and nothing else |
| SoundHandling.GetSound | src/Sound/SoundHandler.cpp:80-91 | a loaded sound is returned with nothing changed; an unloaded one is converted, marked loaded and stored back; the result is always loaded |
| SoundHandling.GetSoundLoadsOnce | src/Sound/SoundHandler.cpp:80-91 | a second GetSound, with any loader, returns the same sound and changes nothing |
| SoundHandling.NewEmitter | src/Sound/SoundHandler.cpp:123 | the emitter has the sound's id and loop type, priority 0 and no audio source or buffer |
| SoundHandling.CreateEmitterAsWritten | src/Sound/SoundHandler.cpp:119-129 | the id is the current number of emitters; the played emitter is stored under it, replacing whatever was there |
| SoundHandling.EmitterIdReused | src/Sound/SoundHandler.cpp:122-125 | with only id 1 in use, creation picks id 1, replaces the live emitter, and the count does not grow |
| SoundHandling.DestroyEmitter | src/Sound/SoundHandler.cpp:131-134 | exactly that id is removed and every other emitter is unchanged |
| SoundHandling.FreshId | src/Sound/SoundHandler.cpp:122 | the least unused id at or above the emitter count |
| SoundHandling.AddEmitter | src/Sound/SoundHandler.cpp:122-125 | the corrected id is unused and at least the emitter count; it equals the count when the count is free; the emitter is added and the others are kept |
| SoundHandling.CreateEmitter | src/Sound/SoundHandler.cpp:119-129 | the corrected creation never replaces a live emitter: one more emitter, under a fresh id, holding the played emitter |
| SoundHandling.CreateEmitterAgrees | src/Sound/SoundHandler.cpp:119-129 | when the count is not in use as an id, the corrected creation is the source's |
| SoundHandling.CreateEmitterAsWrittenDense | src/Sound/SoundHandler.cpp:119-129 | while the ids are 0 to n-1 (nothing destroyed), the source's id is free: one more emitter, the others kept, the ids still dense |
| SoundHandling.CreateThenDestroy | src/Sound/SoundHandler.cpp:119-134 | for the corrected creation: destroying the emitter just created restores the emitters |
| SoundHandling.CreateThenDestroyAsWritten | src/Sound/SoundHandler.cpp:119-134 | for the source's creation, the round trip restores the emitters only when the chosen id was free; otherwise the destroy also removes the emitter the creation replaced, leaving one fewer |
| SoundHandling.PlaySound | src/Sound/SoundHandler.cpp:112-117 | the source's creation with unit vectors, full volume and not in the world: the played emitter is stored under the emitter count, replacing a live emitter there so the count does not grow; while the ids are dense the count grows by one and stays dense |
| SoundHandling.CreateEmitterFrom | src/Sound/SoundHandler.cpp:105-110 | the drawn id's emitter is stored under the emitter count, every other emitter is kept, the keys are the old ones plus that id, and dense ids stay dense |
| SoundHandling.Tick | src/Sound/SoundHandler.cpp:65-77 | the kept emitters are exactly the updated ones still playing or paused, stored updated |
| SoundHandling.TickSettles | src/Sound/SoundHandler.cpp:65-77 | when the player's update changes nothing, a second tick keeps what the first kept |
| SoundHandling.SortedKeys | src/Sound/SoundHandler.cpp:97 | the ids in ascending order, each once |
| SoundHandling.GetActiveEmitters | src/Sound/SoundHandler.cpp:93-103 | one entry per emitter, in ascending id order |
| SoundHandling.ActiveEmittersListAll | src/Sound/SoundHandler.cpp:93-103 | every stored emitter is listed, after exactly the emitters with smaller ids |
| Temple.OutsideMeshesShape | src/TempleStructure.cpp:25-44 | 18 names: the evil temple, the worship site, the entrance, then fifteen names that all map to TempleState1 |
| Temple.OutsideMeshValues | src/TempleStructure.cpp:25-44 | only EvilTemple, WorshipSite, Entrance and TempleState1 are ever produced |
| Temple.EvilTempleName | src/TempleStructure.cpp:25-44 | a name is classified as the evil temple exactly when it is "b_first_temple_l3d" |
| Temple.OutdoorParts | src/TempleStructure.cpp:127-129 | each located mesh is classified by the outdoor table, in order |
| Temple.LoadOutsideTempleMeshes | src/TempleStructure.cpp:110-134 | succeeds exactly when the locator succeeds with at least one mesh; on failure nothing changes; otherwise meshes are emplaced by part, first id wins |
| Temple.OutdoorPartsProduced | src/TempleStructure.cpp:127-131 | outdoor loading files meshes only under the four parts the table produces |
| Temple.GetTempleMeshId | src/TempleStructure.cpp:241-244 | the id filed under the evil temple |
| Temple.GetTempleWorshipSiteMeshId | src/TempleStructure.cpp:246-249 | the id filed under the worship site |
| Temple.TempleMeshIdAfterLoad | src/TempleStructure.cpp:127-131 | after loading into an empty map, the temple mesh is the first located "b_first_temple_l3d" |
| Temple.CameraPathRoom | src/TempleStructure.cpp:158-183 | the switch handles exactly the seven room parts, never giving Count |
| Temple.CameraPathTableRooms | src/TempleStructure.cpp:86-95 | every camera-path stem is handled by the switch, and the stems cover the seven rooms |
| Temple.CameraFileRoom | src/TempleStructure.cpp:154-183 | a camera file whose stem is in the table loads for a real room, never Count |
| Temple.CameraFileEntries | src/TempleStructure.cpp:151-156 | each camera file is paired with the room its stem opens |
| Temple.LoadCameraPaths | src/TempleStructure.cpp:151-187 | every file's room gets a path, the last file for a room wins, and rooms no file opens keep their path |
| Temple.InteriorEntries | src/TempleStructure.cpp:196-198 | each located mesh is classified by the interior table, in order |
| Temple.LoadInteriorTempleAssets | src/TempleStructure.cpp:136-229 | fails with nothing changed when the locator fails; camera paths load before the empty check; LO parts and Movement are never added; existing ids stay; new parts take their first id |
| Temple.InteriorFirstIdWins | src/TempleStructure.cpp:225 | a new, kept part takes the id of the first mesh classified as it |
| Temple.InteriorMeshesEmplaced | src/TempleStructure.cpp:196-226 | the interior map is the kept entries emplaced in order |
| Temple.PartsBelow | src/TempleStructure.cpp:235 | the parts of the map below a bound, each once, in strictly ascending order |
| Temple.PartsBelowCount | src/TempleStructure.cpp:235 | the ascending part list lists each part once |
| Temple.InteriorKeyOrder | src/TempleStructure.cpp:235 | the map's keys in ascending order, each once |
| Temple.GetInteriorTempleMeshIds | src/TempleStructure.cpp:231-239 | one id per part present, in ascending part order |
| Temple.InteriorMeshIdsComplete | src/TempleStructure.cpp:231-239 | every loaded part contributes its id exactly once |
| Temple.MoveToRoom | src/TempleStructure.cpp:306-313 | no effect outside; inside, the camera plays the room's path from the temple position |
| Temple.EnterTemple | src/TempleStructure.cpp:251-286 | no-op inside; otherwise saves the camera, hides island, sky and water, spawns one interior entity per mesh id, moves the camera in and plays the main room |
| Temple.ExitTemple | src/TempleStructure.cpp:288-304 | no-op outside; otherwise removes the interior entities, draws the world again and restores the saved camera |
| Temple.EnterExitIdempotent | src/TempleStructure.cpp:251-304 | entering twice is entering once, and exiting twice is exiting once |
| Temple.EnterThenExitRestores | src/TempleStructure.cpp:251-304 | enter then exit restores the camera, sets the island, sky and water draw flags to true, removes the interior entities and keeps everything that was loaded |
| Temple.MoveToRoomLastWins | src/TempleStructure.cpp:306-313 | the last room moved to decides the path, and the camera position is untouched |
| Temple.GetRoomName | src/TempleStructure.cpp:315-318 | the name the table pairs with the room |
| Temple.RoomNamesCover | src/TempleStructure.cpp:98-107 | every room except Count has a name |
| Temple.GetRoomNameOfEntry | src/TempleStructure.cpp:98-107 | every table row is what its room looks up |
| Temple.RoomNamesDistinct | src/TempleStructure.cpp:98-107 | the seven names are pairwise different; Multi is "Future Room" and Credits is "Multiplayer Room" |

## Left out

- File, OS and library I/O are inputs: locating meshes, reading `.cam` files, the SAD file, `ReadAll`, streams, `zip::Inflate`, the L3D parser, the OpenAL player and the FFmpeg loader. The model sees what they return, never how.
- Rendering and GL calls are omitted: texture generation, binding and upload, `BuildMesh`, `Draw`, `SkinnedModel::LoadFromL3D`, and the spdlog output. The mesh pack records what each upload and model load is handed.
- Floats are opaque. `std::stof` is a parameter that either parses or fails. Terrain height, `GetRotation`, `GetSize` and the camera maths are not modelled. The rotation and scale keep their integer arguments, and the villager's half turn and unit scale are named constants.
- SoundHandling.NewHandler: the constructor's `_audioPlayer->SetVolume(.5f)` is a call into the audio player, which holds no state in this model.
- SoundHandling.CreateEmitterFrom: `std::sample` with `std::random_device` is left out. The drawn index is the parameter `choice`, and an empty list is excluded because `out[0]` is then undefined.
- ScriptBinding.GetHorizontalPosition: parse failures are reported as the token that failed rather than as the exception object. Strings.Sized bounds a string below `npos`, as `std::string` does.
- MeshPacks.ParseTextureId: `strtoul` is modelled on a string of hexadecimal digits without leading whitespace, sign or "0x" prefix.
- MeshPacks.LoadTextureBlock: the debug `assert(id == texture->id)` is modelled as an error.
- MeshPacks.LoadTextureBlock: an id outside 1..110, which indexes `textures` out of range in the source, is an error.
- MeshPacks.LoadMeshPack: reads past the end of the file, which are undefined behaviour in the source, are errors.
- MeshPacks.ReadBlockHeader: a block name with no NUL in its 32 bytes is read as all 32 characters. The source would read past the field.
- MeshPacks.CompressedSize: the `GLsizei` sums and products are unbounded integers, so their 32-bit overflow is not modelled.
- LandBlocks.Load: `throw new` (a thrown pointer) is modelled as an ordinary error.
- LandBlocks.Load: the two map-position floats are kept as bit patterns.
- LandBlocks.CellVertexAtCorner: a cell's altitude, split flag, light, alpha and material come from the island, given as functions. `LandCell`'s bit layout, the country table and the noise are not modelled.
- Loaders.LoadL3DFromDisk: a `.zzz` file shorter than its 4-byte size field is an error. The source reads an unspecified size.
- Loaders.LoadL3DFromDisk: the Android branches are left out.
- FeatureRegistry.CreateVillagerPos: the villager mesh lookup (`villagerMeshLookup`) is not modelled.
- FeatureRegistry.CreateVillagerPos: the `TribeStrs` and `RoleStrs` tables are not part of this model. Both are maps given as parameters.
- FeatureRegistry.CreateStreamPoint: the node's link to the earlier nodes is kept as the node list at the time of the call.
- The statement-level script driver, `VMInstruction::Disassemble`, the other script commands, and every declaration-only header are not part of this model.
- Temple.LoadInteriorTempleAssets: which located names are skipped is stated by part. No lemma characterises the skipped names by their spelling.
- Temple.CameraPathRoom: the switch's default branch, which leaves the room uninitialised, is outside the camera-path table and so is never reached.
- BulletMeshes.NewMeshInterface: the never-ending loop for more than 65535 vertices is `None`.
- BulletMeshes.NewMeshInterface: the `float` values are copied as 32-bit patterns.
- BulletMeshes.NewMeshInterface: the vertex records must lie inside `vertex_data` (a precondition, undefined behaviour in the source), and a zero stride is excluded.
- MeshPackFiles.LoadMeshPackOfParts: the packs written out are one layout: texture blocks with zero in the DDS fields the loop does not read, and a MESHES block whose 626 entries share one mini header. Other layouts are covered by the contracts of `MeshPacks` but by no round trip.

## Findings

| source | as written | input that shows it | evidently intended | confidence | as-written member | corrected member |
|---|---|---|---|---|---|---|
| src/Sound/SoundHandler.cpp:122-125 | the new emitter id is `_emitters.size()`, and the emitter is stored under it with `operator[]` | create emitters 0 and 1, then destroy 0: one emitter is left, so the next creation picks id 1 and overwrites the live emitter 1 | each new emitter gets an id not in use, and the map grows by one | not executed | SoundHandling.EmitterIdReused | SoundHandling.CreateEmitter |
| src/3D/MeshPack.cpp:248-251 | `GetMeshCount` returns `_meshCount`, which is set to 0 at line 148 and never assigned again | any pack with a MESHES block loads 626 models but reports 0; MeshPackFiles.MeshCountWitness builds one | the number of models loaded | not executed | MeshPacks.MeshCountAsWrittenIsZero | MeshPacks.MeshCountCountsModels |
