/** The G3D mesh pack (src/3D/MeshPack.cpp): after an 8-byte magic the file is a chain
    of blocks, each a 32-byte NUL-terminated name and a 32-bit size followed by that many
    bytes. The first 110 blocks are DXT-compressed textures named by their id in
    hexadecimal; the blocks after them are walked to the end of the file, and a MESHES
    block lists the offsets of the 626 L3D models. The file is a byte sequence; the GL
    uploads and the model parser are recorded as what they are handed. Reading past the
    end of the file is undefined in the source and is an `Err` here. */
module MeshPacks {
  import opened Common

  // ---------------------------------------------------------------------------
  // C strings

  /** `StrLen`: the number of characters before the first NUL. */
  function StrLen(s: string): (r: nat)
    requires '\0' in s
    ensures r < |s| && s[r] == '\0' && '\0' !in s[..r]
  {
    if s[0] == '\0' then 0
    else
      assert '\0' in s[1..] by {
        var k :| 0 <= k < |s| && s[k] == '\0';
        assert s[1..][k - 1] == '\0';
      }
      var n := StrLen(s[1..]);
      assert s[..n + 1] == [s[0]] + s[1..][..n];
      n + 1
  }

  /** The `"LiOnHeAd"` literal with its terminating NUL. */
  const LionheadMagic: string := "LiOnHeAd\0"

  /** The number of bytes skipped before the first block header. */
  const LionheadMagicLength: nat := StrLen(LionheadMagic)

  lemma LionheadMagicLengthIsEight()
    ensures LionheadMagicLength == 8
  {
    assert LionheadMagic[8] == '\0';
  }

  /** A byte read as the character of the same code. */
  function CharOf(b: byte): char
  {
    b as int as char
  }

  /** `std::string` of a `char` array: the characters before the first NUL, or all of
      them when there is none. */
  function CString(bs: seq<byte>): (r: string)
    ensures |r| <= |bs| && '\0' !in r
    ensures forall i :: 0 <= i < |r| ==> r[i] == CharOf(bs[i])
    ensures |r| < |bs| ==> bs[|r|] == 0
  {
    if |bs| == 0 || bs[0] == 0 then "" else [CharOf(bs[0])] + CString(bs[1..])
  }

  /** `std::string(p, n)`: exactly `n` characters, NULs included. */
  function Chars(bs: seq<byte>): (r: string)
    ensures |r| == |bs| && forall i :: 0 <= i < |bs| ==> r[i] == CharOf(bs[i])
  {
    seq(|bs|, i requires 0 <= i < |bs| => CharOf(bs[i]))
  }

  // ---------------------------------------------------------------------------
  // Block ids in hexadecimal

  predicate IsHexDigit(c: char)
  {
    '0' <= c <= '9' || 'a' <= c <= 'f' || 'A' <= c <= 'F'
  }

  function HexDigitValue(c: char): (r: nat)
    requires IsHexDigit(c)
    ensures r < 16
  {
    if '0' <= c <= '9' then c as int - '0' as int
    else if 'a' <= c <= 'f' then c as int - 'a' as int + 10
    else c as int - 'A' as int + 10
  }

  /** The length of the longest prefix of hexadecimal digits. */
  function HexPrefixLength(s: string): (r: nat)
    ensures r <= |s|
    ensures forall i :: 0 <= i < r ==> IsHexDigit(s[i])
    ensures r < |s| ==> !IsHexDigit(s[r])
  {
    if |s| == 0 || !IsHexDigit(s[0]) then 0
    else 1 + HexPrefixLength(s[1..])
  }

  /** The value of a string of hexadecimal digits, most significant first. */
  function HexValue(s: string): nat
    requires forall i :: 0 <= i < |s| ==> IsHexDigit(s[i])
  {
    if |s| == 0 then 0
    else HexValue(s[..|s| - 1]) * 16 + HexDigitValue(s[|s| - 1])
  }

  /** `ULONG_MAX` of a 64-bit `unsigned long`. */
  const ULongMax: int := 0xFFFF_FFFF_FFFF_FFFF

  const InvalidTextureId := "Invalid block header texture ID. Unable to parse as an integer"

  /** `strtoul(name, nullptr, 16)` stored in a `uint32_t`, with the `errno` check: the
      value of the leading hexadecimal digits (0 when there are none), an error when it
      exceeds `ULONG_MAX`, and otherwise its low 32 bits. */
  function ParseTextureId(name: string): (r: Result<u32, string>)
    ensures r.Err? ==> r.error == InvalidTextureId
  {
    var digits := name[..HexPrefixLength(name)];
    var v := HexValue(digits);
    if v > ULongMax then Err(InvalidTextureId) else Ok(v % TwoTo32)
  }

  /** The lower-case hexadecimal digit of a value below 16. */
  function HexDigit(d: nat): (c: char)
    requires d < 16
    ensures IsHexDigit(c) && HexDigitValue(c) == d
  {
    if d < 10 then (d + '0' as int) as char else (d - 10 + 'a' as int) as char
  }

  /** The hexadecimal spelling of a value, without leading zeros: how a pack names the
      block of a texture. */
  function ToHex(v: nat): (r: string)
    ensures |r| > 0 && forall i :: 0 <= i < |r| ==> IsHexDigit(r[i])
    decreases v
  {
    if v < 16 then [HexDigit(v)] else ToHex(v / 16) + [HexDigit(v % 16)]
  }

  lemma {:induction false} HexValueOfToHex(v: nat)
    ensures HexValue(ToHex(v)) == v
    decreases v
  {
    if v >= 16 {
      HexValueOfToHex(v / 16);
      var s := ToHex(v);
      assert s[..|s| - 1] == ToHex(v / 16);
    }
  }

  /** A block named by the hexadecimal spelling of a 32-bit id parses back to that id. */
  lemma ParseTextureIdOfToHex(id: u32)
    ensures ParseTextureId(ToHex(id)) == Ok(id)
  {
    var s := ToHex(id);
    HexValueOfToHex(id);
    assert HexPrefixLength(s) == |s|;
    assert s[..|s|] == s;
  }

  // ---------------------------------------------------------------------------
  // DXT sizes

  datatype DxtFormat = Dxt1 | Dxt3

  /** A FourCC as `createCompressedDDS` spells it: the four characters packed from the
      least significant byte up. */
  function FourCCCode(a: char, b: char, c: char, d: char): int
  {
    a as int + b as int * 0x100 + c as int * 0x1_0000 + d as int * 0x100_0000
  }

  const UnsupportedFormat := "Unsupported compressed texture format"

  /** The `switch` on the DDS FourCC: DXT1 and DXT3 only. */
  function DxtOfFourCC(code: u32): (r: Result<DxtFormat, string>)
    ensures r == Ok(Dxt1) <==> code == FourCCCode('D', 'X', 'T', '1')
    ensures r == Ok(Dxt3) <==> code == FourCCCode('D', 'X', 'T', '3')
    ensures r.Err? ==> r.error == UnsupportedFormat
  {
    if code == FourCCCode('D', 'X', 'T', '1') then Ok(Dxt1)
    else if code == FourCCCode('D', 'X', 'T', '3') then Ok(Dxt3)
    else Err(UnsupportedFormat)
  }

  /** Bytes of a string of ASCII characters. */
  function AsciiBytes(s: string): (r: seq<byte>)
    requires forall i :: 0 <= i < |s| ==> s[i] as int < 0x100
    ensures |r| == |s|
  {
    seq(|s|, i requires 0 <= i < |s| => s[i] as int as byte)
  }

  /** The packed code is how the four characters "DXT1" or "DXT3" read as a
      little-endian 32-bit word, so a DDS header written with the text FourCC matches. */
  lemma FourCCIsTextInFile()
    ensures LE32(AsciiBytes("DXT1"), 0) == FourCCCode('D', 'X', 'T', '1')
    ensures LE32(AsciiBytes("DXT3"), 0) == FourCCCode('D', 'X', 'T', '3')
    ensures DxtOfFourCC(LE32(AsciiBytes("DXT1"), 0)) == Ok(Dxt1)
    ensures DxtOfFourCC(LE32(AsciiBytes("DXT5"), 0)).Err?
  {
    assert AsciiBytes("DXT1") == [0x44, 0x58, 0x54, 0x31];
    assert AsciiBytes("DXT3") == [0x44, 0x58, 0x54, 0x33];
    assert AsciiBytes("DXT5") == [0x44, 0x58, 0x54, 0x35];
  }

  function BytesPerBlock(f: DxtFormat): nat
  {
    match f
    case Dxt1 => 8
    case Dxt3 => 16
  }

  /** `std::max(1, (n + 3) >> 2)`: the number of 4-pixel blocks along an edge of `n`
      pixels, never less than one. `>>` on a signed value rounds toward minus infinity,
      as `/` by a positive divisor does here. */
  function BlockCount(n: int): (r: int)
    ensures r >= 1 && 4 * r >= n
    ensures r == 1 || 4 * (r - 1) < n
  {
    var q := (n + 3) / 4;
    if q < 1 then 1 else q
  }

  /** The byte size handed to `glCompressedTexImage2D`. */
  function CompressedSize(f: DxtFormat, width: i32, height: i32): (r: int)
    ensures r >= BytesPerBlock(f) && r % BytesPerBlock(f) == 0
    ensures r == BlockCount(width) * BlockCount(height) * BytesPerBlock(f)
  {
    var bw := BlockCount(width);
    var bh := BlockCount(height);
    assert bw * bh >= 1;
    bw * bh * BytesPerBlock(f)
  }

  /** For dimensions that are whole blocks, DXT1 stores four bits per pixel and DXT3
      eight. */
  lemma CompressedSizeBitsPerPixel(width: i32, height: i32)
    requires width > 0 && height > 0 && width % 4 == 0 && height % 4 == 0
    ensures 2 * CompressedSize(Dxt1, width, height) == width * height
    ensures CompressedSize(Dxt3, width, height) == width * height
  {
    var a := width / 4;
    var b := height / 4;
    assert BlockCount(width) == a;
    assert BlockCount(height) == b;
    assert width * height == 16 * (a * b);
  }

  // ---------------------------------------------------------------------------
  // Blocks

  const PastEnd := "read past the end of the file"
  const BlockHeaderSize: nat := 36
  const BlockNameSize: nat := 32

  /** `G3DBlockHeader`: the name before its NUL and the size of the data after it. */
  datatype BlockHeader = BlockHeader(name: string, size: u32)

  function ReadBlockHeader(file: seq<byte>, at: nat): (r: BlockHeader)
    requires at + BlockHeaderSize <= |file|
    ensures |r.name| <= BlockNameSize && r.size == LE32(file, at + 32)
    ensures forall i :: 0 <= i < |r.name| ==> r.name[i] == CharOf(file[at + i])
  {
    BlockHeader(CString(file[at..at + BlockNameSize]), LE32(file, at + BlockNameSize))
  }

  // ---------------------------------------------------------------------------
  // Textures

  const TotalTextures: nat := 110
  const TextureIdMismatch := "assertion id == texture->id failed"
  const TextureSlotOutOfRange := "texture id outside the texture array"

  /** One `glCompressedTexImage2D` upload: the texture slot bound, the format, the DDS
      header's dimensions as `GLsizei`, the byte size and where the data starts. */
  datatype TextureUpload = TextureUpload(slot: nat, format: DxtFormat, width: i32, height: i32, size: int, dataOffset: nat)

  /** The offset of the block after the texture block at `at`: `36 + blockSize` is
      computed in 32-bit unsigned arithmetic before it moves the pointer. */
  function NextTextureBlock(file: seq<byte>, at: nat): (r: nat)
    requires at + BlockHeaderSize <= |file|
    ensures r >= at && r - at < TwoTo32
    ensures LE32(file, at + 32) < TwoTo32 - 36 ==> r == at + 36 + LE32(file, at + 32)
  {
    at + (36 + LE32(file, at + BlockNameSize)) % TwoTo32
  }

  /** The bytes of a texture block the loop reads: the 36-byte header, the 16-byte
      `G3DHiResTexture` fields and the DDS header up to its FourCC. */
  const TextureBlockReadSize: nat := 136

  /** What the texture loop throws (or, for the last two, what the model reports for
      the debug assertion and the out-of-range slot). */
  const TextureErrors: set<string> := {PastEnd, InvalidTextureId, UnsupportedFormat, TextureIdMismatch, TextureSlotOutOfRange}

  /** When one texture block loads: its bytes are in the file, its name parses to the
      id stored after the header, that id picks one of the 110 slots, and the DDS
      FourCC is DXT1 or DXT3. */
  predicate TextureBlockLoads(file: seq<byte>, at: nat)
  {
    && at + TextureBlockReadSize <= |file|
    && var id := ParseTextureId(ReadBlockHeader(file, at).name);
    && id.Ok? && id.value == LE32(file, at + 40) && 1 <= id.value <= TotalTextures
    && DxtOfFourCC(LE32(file, at + 132)).Ok?
  }

  /** One iteration of the texture loop: the block's name parsed as a hexadecimal id
      that must equal the `id` field of the `G3DHiResTexture` after the header (a debug
      assertion) and select slot `id - 1` of the 110; the DDS header then gives the size
      of the upload. The texture record is 16 bytes and the DDS header that follows it
      is read up to its FourCC at byte 80. */
  function LoadTextureBlock(file: seq<byte>, at: nat): (r: Result<(TextureUpload, nat), string>)
    ensures r.Ok? <==> TextureBlockLoads(file, at)
    ensures at + BlockHeaderSize > |file| ==> r == Err(PastEnd)
    ensures at + BlockHeaderSize <= |file| && ParseTextureId(ReadBlockHeader(file, at).name).Err? ==>
      r == Err(InvalidTextureId)
    ensures at + BlockHeaderSize <= |file| && ParseTextureId(ReadBlockHeader(file, at).name).Ok? ==>
      var id := ParseTextureId(ReadBlockHeader(file, at).name).value;
      && (at + TextureBlockReadSize > |file| ==> r == Err(PastEnd))
      && (at + TextureBlockReadSize <= |file| && id != LE32(file, at + 40) ==> r == Err(TextureIdMismatch))
      && ((at + TextureBlockReadSize <= |file| && id == LE32(file, at + 40) && !(1 <= id <= TotalTextures)) ==>
          r == Err(TextureSlotOutOfRange))
      && ((at + TextureBlockReadSize <= |file| && id == LE32(file, at + 40) && 1 <= id <= TotalTextures
           && DxtOfFourCC(LE32(file, at + 132)).Err?) ==> r == Err(UnsupportedFormat))
    ensures r.Err? ==> r.error in TextureErrors
    ensures r.Ok? ==> at + BlockHeaderSize + 100 <= |file|
    ensures r.Ok? ==> var t := r.value.0;
      ParseTextureId(ReadBlockHeader(file, at).name) == Ok(t.slot + 1)
      && LE32(file, at + 40) == t.slot + 1 && t.slot < TotalTextures
    ensures r.Ok? ==> var t := r.value.0; var desc := at + 52;
      DxtOfFourCC(LE32(file, desc + 80)) == Ok(t.format)
      && t.width == U32ToI32(LE32(file, desc + 12)) && t.height == U32ToI32(LE32(file, desc + 8))
      && t.size == CompressedSize(t.format, t.width, t.height)
      && t.dataOffset == desc + LE32(file, desc)
    ensures r.Ok? ==> r.value.1 == NextTextureBlock(file, at)
  {
    if at + BlockHeaderSize > |file| then Err(PastEnd)
    else
      var header := ReadBlockHeader(file, at);
      var id :- ParseTextureId(header.name);
      var dataAfterHeader := at + BlockHeaderSize;
      if dataAfterHeader + 100 > |file| then Err(PastEnd)
      else if id != LE32(file, dataAfterHeader + 4) then Err(TextureIdMismatch)
      else if id < 1 || id > TotalTextures then Err(TextureSlotOutOfRange)
      else
        var desc := dataAfterHeader + 16;
        var format :- DxtOfFourCC(LE32(file, desc + 80));
        var width := U32ToI32(LE32(file, desc + 12));
        var height := U32ToI32(LE32(file, desc + 8));
        var upload := TextureUpload(id - 1, format, width, height, CompressedSize(format, width, height), desc + LE32(file, desc));
        Ok((upload, NextTextureBlock(file, at)))
  }

  /** `n` texture blocks in a row from `at` each load, every one starting where the
      loop's pointer arithmetic puts it. */
  predicate TexturesLoad(file: seq<byte>, at: nat, n: nat)
    decreases n
  {
    n == 0 || (TextureBlockLoads(file, at) && TexturesLoad(file, NextTextureBlock(file, at), n - 1))
  }

  /** `n` texture blocks in a row from `at`: their uploads in order and the offset after
      the last. */
  function LoadTextures(file: seq<byte>, at: nat, n: nat): (r: Result<(seq<TextureUpload>, nat), string>)
    ensures r.Ok? <==> TexturesLoad(file, at, n)
    ensures r.Err? ==> r.error in TextureErrors
    ensures r.Ok? ==> |r.value.0| == n && r.value.1 >= at
    ensures r.Ok? ==> forall i :: 0 <= i < n ==> r.value.0[i].slot < TotalTextures
    ensures r.Ok? && n > 0 ==> LoadTextureBlock(file, at).Ok? && r.value.0[0] == LoadTextureBlock(file, at).value.0
    decreases n
  {
    if n == 0 then Ok(([], at))
    else
      var first :- LoadTextureBlock(file, at);
      var rest :- LoadTextures(file, first.1, n - 1);
      Ok(([first.0] + rest.0, rest.1))
  }

  // ---------------------------------------------------------------------------
  // Meshes

  const ModelMagic: string := "MKJC"
  const ModelCount: nat := 626
  const InvalidMagic := "Invalid G3D L3D Mesh magic header bytes"
  const InvalidCount := "Invalid G3D L3D Mesh count"

  /** What `SkinnedModel::LoadFromL3D` is handed: where the model's bytes start and the
      `l3dSize` of its mini header. */
  datatype ModelRef = ModelRef(offset: nat, l3dSize: u32)

  /** The models `i` to 625 of a MESHES block whose data starts at `data`: model `k`
      starts at `data` plus the `k`-th entry of the offset table after the 8-byte
      `G3DMeshes` header, and its size is the third word of its mini header. */
  function ModelRefs(file: seq<byte>, data: nat, i: nat): (r: Result<seq<ModelRef>, string>)
    requires i <= ModelCount
    ensures r.Err? ==> r.error == PastEnd
    ensures r.Ok? ==> |r.value| == ModelCount - i
    ensures r.Ok? ==> forall k :: 0 <= k < |r.value| ==>
      (data + 8 + 4 * (i + k) + 4 <= |file|
      && r.value[k].offset == data + LE32(file, data + 8 + 4 * (i + k))
      && r.value[k].offset + 12 <= |file|
      && r.value[k].l3dSize == LE32(file, r.value[k].offset + 8))
    decreases ModelCount - i
  {
    if i == ModelCount then Ok([])
    else
      var entry := data + 8 + 4 * i;
      if entry + 4 > |file| then Err(PastEnd)
      else
        var offset := data + LE32(file, entry);
        if offset + 12 > |file| then Err(PastEnd)
        else
          var rest :- ModelRefs(file, data, i + 1);
          var r := [ModelRef(offset, LE32(file, offset + 8))] + rest;
          assert forall k :: 0 < k < |r| ==> r[k] == rest[k - 1] && i + k == (i + 1) + (k - 1);
          Ok(r)
  }

  /** What the block walk throws (reads past the end included). */
  const MeshErrors: set<string> := {PastEnd, InvalidMagic, InvalidCount}

  /** A MESHES block: the magic and the count are checked, in that order, then all 626
      models are listed in table order. */
  function MeshesBlock(file: seq<byte>, data: nat): (r: Result<seq<ModelRef>, string>)
    ensures r.Err? ==> r.error in MeshErrors
    ensures data + 8 <= |file| && Chars(file[data..data + 4]) == ModelMagic && LE32(file, data + 4) != ModelCount ==>
      r == Err(InvalidCount)
    ensures r.Ok? ==> data + 8 <= |file| && |r.value| == ModelCount
    ensures r.Ok? ==> Chars(file[data..data + 4]) == ModelMagic && LE32(file, data + 4) == ModelCount
    ensures r.Ok? ==> ModelRefs(file, data, 0) == r
    ensures r == Err(InvalidMagic) <==> data + 8 <= |file| && Chars(file[data..data + 4]) != ModelMagic
  {
    if data + 8 > |file| then Err(PastEnd)
    else if Chars(file[data..data + 4]) != ModelMagic then Err(InvalidMagic)
    else if LE32(file, data + 4) != ModelCount then Err(InvalidCount)
    else ModelRefs(file, data, 0)
  }

  /** A list of models that is a whole number of MESHES blocks' worth. */
  predicate WholeMeshes(models: seq<ModelRef>)
  {
    |models| % ModelCount == 0
  }

  lemma WholeMeshesConcat(a: seq<ModelRef>, b: seq<ModelRef>)
    requires WholeMeshes(a) && WholeMeshes(b)
    ensures WholeMeshes(a + b)
  {
    assert |a + b| == |a| + |b|;
  }

  /** The models a block contributes: a MESHES block its 626, INFO, LOW and any other
      block nothing. */
  function BlockModels(file: seq<byte>, at: nat): (r: Result<seq<ModelRef>, string>)
    requires at + BlockHeaderSize <= |file|
    ensures r.Ok? ==> |r.value| == (if ReadBlockHeader(file, at).name == "MESHES" then ModelCount else 0)
    ensures ReadBlockHeader(file, at).name != "MESHES" ==> r == Ok([])
    ensures ReadBlockHeader(file, at).name == "MESHES" ==> r == MeshesBlock(file, at + BlockHeaderSize)
    ensures r.Err? ==> r.error in MeshErrors
    ensures r.Ok? ==> WholeMeshes(r.value)
  {
    if ReadBlockHeader(file, at).name == "MESHES" then MeshesBlock(file, at + BlockHeaderSize) else Ok([])
  }

  /** Where the block after the one at `at` starts: `36 + blockSize` on, computed in
      64-bit arithmetic so that it does not wrap. */
  function NextBlock(file: seq<byte>, at: nat): (r: nat)
    requires at + BlockHeaderSize <= |file|
    ensures r == at + 36 + LE32(file, at + 32)
  {
    at + BlockHeaderSize + ReadBlockHeader(file, at).size
  }

  /** A result with `prefix` put in front of its models. */
  function Prepend(prefix: seq<ModelRef>, r: Result<seq<ModelRef>, string>): (p: Result<seq<ModelRef>, string>)
    ensures p.Ok? <==> r.Ok?
    ensures p.Ok? ==> |p.value| == |prefix| + |r.value| && p.value[..|prefix|] == prefix && p.value[|prefix|..] == r.value
    ensures p.Err? ==> p.error == r.error
  {
    match r
    case Ok(models) => Ok(prefix + models)
    case Err(e) => Err(e)
  }

  lemma PrependEmpty(r: Result<seq<ModelRef>, string>)
    ensures Prepend([], r) == r
  {
    if r.Ok? {
      assert [] + r.value == r.value;
    }
  }

  lemma PrependTwice(a: seq<ModelRef>, b: seq<ModelRef>, r: Result<seq<ModelRef>, string>)
    ensures Prepend(a, Prepend(b, r)) == Prepend(a + b, r)
  {
    if r.Ok? {
      assert a + (b + r.value) == (a + b) + r.value;
    }
  }

  /** The block loop after the textures: while the offset is before the last byte of
      the file, take the block's models and move on to the next block. */
  function WalkBlocks(file: seq<byte>, at: nat): (r: Result<seq<ModelRef>, string>)
    ensures r.Ok? ==> WholeMeshes(r.value)
    ensures r.Err? ==> r.error in MeshErrors
    ensures at + 1 >= |file| ==> r == Ok([])
    ensures at + 1 < |file| && at + BlockHeaderSize > |file| ==> r == Err(PastEnd)
    decreases |file| - at
  {
    if at + 1 >= |file| then Ok([])
    else if at + BlockHeaderSize > |file| then Err(PastEnd)
    else
      var block := BlockModels(file, at);
      if block.Err? then Err(block.error)
      else
        var rest := WalkBlocks(file, NextBlock(file, at));
        if rest.Err? then Err(rest.error)
        else
          WholeMeshesConcat(block.value, rest.value);
          Ok(block.value + rest.value)
  }

  /** One block of the walk: its models come before those of the blocks after it. */
  lemma WalkBlocksStep(file: seq<byte>, at: nat)
    requires at + 1 < |file| && at + BlockHeaderSize <= |file| && BlockModels(file, at).Ok?
    ensures WalkBlocks(file, at) == Prepend(BlockModels(file, at).value, WalkBlocks(file, NextBlock(file, at)))
  {
  }

  /** The block loop as the source writes it, appending to `models` block by block. */
  method WalkBlocksLoop(file: seq<byte>, start: nat) returns (r: Result<seq<ModelRef>, string>)
    ensures r == WalkBlocks(file, start)
  {
    var at := start;
    var models: seq<ModelRef> := [];
    PrependEmpty(WalkBlocks(file, start));
    while at + 1 < |file|
      invariant WalkBlocks(file, start) == Prepend(models, WalkBlocks(file, at))
      decreases |file| - at
    {
      if at + BlockHeaderSize > |file| {
        return Err(PastEnd);
      }
      var block := BlockModels(file, at);
      if block.Err? {
        return Err(block.error);
      }
      var next := NextBlock(file, at);
      WalkBlocksStep(file, at);
      PrependTwice(models, block.value, WalkBlocks(file, next));
      models := models + block.value;
      at := next;
    }
    assert models + [] == models;
    return Ok(models);
  }

  // ---------------------------------------------------------------------------
  // The pack

  /** The loaded pack: the texture uploads in file order, the models in file order, and
      the `_meshCount` member. */
  datatype MeshPack = MeshPack(textures: seq<TextureUpload>, models: seq<ModelRef>, meshCount: u32)

  /** The `MeshPack` constructor: skip the magic, load the 110 textures, walk the rest.
      An empty file is an error because the source takes the address of its last byte.
      `_meshCount` is initialised to 0 and never assigned. */
  function LoadMeshPack(file: seq<byte>): (r: Result<MeshPack, string>)
    ensures r.Ok? <==> (|file| > 0 && TexturesLoad(file, LionheadMagicLength, TotalTextures)
      && WalkBlocks(file, LoadTextures(file, LionheadMagicLength, TotalTextures).value.1).Ok?)
    ensures r.Err? ==> r.error in TextureErrors + MeshErrors
    ensures r.Ok? ==> r.value.meshCount == 0
    ensures r.Ok? ==> |file| > 0 && |r.value.textures| == TotalTextures
    ensures r.Ok? ==> var t := LoadTextures(file, LionheadMagicLength, TotalTextures);
      t.Ok? && r.value.textures == t.value.0 && WalkBlocks(file, t.value.1) == Ok(r.value.models)
    ensures r.Ok? ==> WholeMeshes(r.value.models)
  {
    if |file| == 0 then Err(PastEnd)
    else
      var textures :- LoadTextures(file, LionheadMagicLength, TotalTextures);
      var models :- WalkBlocks(file, textures.1);
      Ok(MeshPack(textures.0, models, 0))
  }

  /** `GetMeshCount` as written: the member that nothing updates. */
  function GetMeshCountAsWritten(p: MeshPack): u32
  {
    p.meshCount
  }

  /** `GetMeshCount` as intended: the number of models loaded, as a `uint32_t`. */
  function GetMeshCount(p: MeshPack): (r: u32)
    ensures |p.models| < TwoTo32 ==> r == |p.models|
  {
    |p.models| % TwoTo32
  }

  /** Every pack that loads reports zero meshes, so one with a MESHES block reports 0
      although it holds 626 models. */
  lemma MeshCountAsWrittenIsZero(file: seq<byte>)
    requires LoadMeshPack(file).Ok?
    ensures GetMeshCountAsWritten(LoadMeshPack(file).value) == 0
    ensures |LoadMeshPack(file).value.models| > 0 ==>
      GetMeshCountAsWritten(LoadMeshPack(file).value) != |LoadMeshPack(file).value.models|
  {}

  /** The corrected count is a whole number of MESHES blocks' worth of models. */
  lemma MeshCountCountsModels(file: seq<byte>)
    requires LoadMeshPack(file).Ok? && |LoadMeshPack(file).value.models| < TwoTo32
    ensures GetMeshCount(LoadMeshPack(file).value) == |LoadMeshPack(file).value.models|
    ensures GetMeshCount(LoadMeshPack(file).value) % ModelCount == 0
  {}
}
