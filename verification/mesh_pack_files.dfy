/** Well-formed G3D mesh packs, written out byte by byte, and what the `MeshPack`
    constructor (src/3D/MeshPack.cpp) makes of them: a texture block loads back to the
    upload it describes, a run of such blocks loads in order, and a pack of 110 texture
    blocks followed by one MESHES block loads with its 626 models. */
module MeshPackFiles {
  import opened Common
  import opened MeshPacks

  // ---------------------------------------------------------------------------
  // Bytes held in a file

  /** `file` holds `e` from `at`, byte by byte. */
  predicate HoldsAt(file: seq<byte>, at: nat, e: seq<byte>)
    decreases |e|
  {
    at + |e| <= |file| && (|e| == 0 || (file[at] == e[0] && HoldsAt(file, at + 1, e[1..])))
  }

  lemma {:induction false} HoldsAtIndex(file: seq<byte>, at: nat, e: seq<byte>, i: nat)
    requires HoldsAt(file, at, e) && i < |e|
    ensures file[at + i] == e[i]
    decreases i
  {
    if i > 0 {
      HoldsAtIndex(file, at + 1, e[1..], i - 1);
    }
  }

  lemma {:induction false} HoldsAtOfSlice(file: seq<byte>, at: nat, e: seq<byte>)
    requires at + |e| <= |file| && file[at..at + |e|] == e
    ensures HoldsAt(file, at, e)
    decreases |e|
  {
    if |e| > 0 {
      assert file[at + 1..at + 1 + |e[1..]|] == e[1..];
      HoldsAtOfSlice(file, at + 1, e[1..]);
    }
  }

  /** Bytes held at `at` are held piecewise. */
  lemma {:induction false} HoldsAtSplit(file: seq<byte>, at: nat, a: seq<byte>, b: seq<byte>)
    requires HoldsAt(file, at, a + b)
    ensures HoldsAt(file, at, a) && HoldsAt(file, at + |a|, b)
    decreases |a|
  {
    if |a| == 0 {
      assert a + b == b;
    } else {
      assert (a + b)[0] == a[0] && (a + b)[1..] == a[1..] + b;
      HoldsAtSplit(file, at + 1, a[1..], b);
    }
  }

  /** `n` NUL bytes. */
  function Zeros(n: nat): (r: seq<byte>)
    ensures |r| == n && forall i :: 0 <= i < n ==> r[i] == 0
  {
    seq(n, i => 0)
  }

  /** Little-endian 32-bit words one after another. */
  function Words(ws: seq<u32>): (r: seq<byte>)
    ensures |r| == 4 * |ws|
  {
    if |ws| == 0 then [] else EncodeLE32(ws[0]) + Words(ws[1..])
  }

  lemma HoldsAtWord(file: seq<byte>, at: nat, v: u32)
    requires HoldsAt(file, at, EncodeLE32(v))
    ensures LE32(file, at) == v
  {
    forall m | 0 <= m < 4
      ensures file[at + m] == EncodeLE32(v)[m]
    {
      HoldsAtIndex(file, at, EncodeLE32(v), m);
    }
    LE32Of(file, at, v);
  }

  /** Word `k` of a run of words held at `at`. */
  lemma {:induction false} HoldsAtWords(file: seq<byte>, at: nat, ws: seq<u32>, k: nat)
    requires HoldsAt(file, at, Words(ws)) && k < |ws|
    ensures LE32(file, at + 4 * k) == ws[k]
    decreases k
  {
    assert Words(ws) == EncodeLE32(ws[0]) + Words(ws[1..]);
    HoldsAtSplit(file, at, EncodeLE32(ws[0]), Words(ws[1..]));
    if k == 0 {
      HoldsAtWord(file, at, ws[0]);
    } else {
      HoldsAtWords(file, at + 4, ws[1..], k - 1);
    }
  }

  // ---------------------------------------------------------------------------
  // Block names

  /** What fits a 32-byte name field and reads back: fewer than 32 non-NUL
      single-byte characters. */
  predicate NameText(s: string)
  {
    |s| < BlockNameSize && forall i :: 0 <= i < |s| ==> 0 < s[i] as int < 0x100
  }

  /** A name field: the name's bytes, then NUL padding. */
  function NameField(s: string): (r: seq<byte>)
    requires NameText(s)
    ensures |r| == BlockNameSize
  {
    AsciiBytes(s) + Zeros(BlockNameSize - |s|)
  }

  /** A name field holding `s` and NUL padding reads back as `s`. */
  lemma {:induction false} CStringOfPadded(bs: seq<byte>, s: string)
    requires |s| < |bs|
    requires forall i :: 0 <= i < |s| ==> bs[i] != 0 && CharOf(bs[i]) == s[i]
    requires bs[|s|] == 0
    ensures CString(bs) == s
    decreases |s|
  {
    if |s| > 0 {
      CStringOfPadded(bs[1..], s[1..]);
      assert s == [s[0]] + s[1..];
    }
  }

  /** The header a block at `at` starts with names it `s`. */
  lemma HoldsAtName(file: seq<byte>, at: nat, s: string)
    requires NameText(s) && HoldsAt(file, at, NameField(s)) && at + BlockHeaderSize <= |file|
    ensures ReadBlockHeader(file, at).name == s
  {
    var f := NameField(s);
    var bs := file[at..at + BlockNameSize];
    forall i | 0 <= i < |s|
      ensures bs[i] != 0 && CharOf(bs[i]) == s[i]
    {
      HoldsAtIndex(file, at, f, i);
      assert f[i] == AsciiBytes(s)[i];
    }
    HoldsAtIndex(file, at, f, |s|);
    assert f[|s|] == Zeros(BlockNameSize - |s|)[0];
    CStringOfPadded(bs, s);
  }

  /** A texture id below 256 has at most two hexadecimal digits. */
  lemma ToHexName(v: nat)
    requires v < 0x100
    ensures NameText(ToHex(v))
  {
    if v >= 16 {
      assert ToHex(v) == ToHex(v / 16) + [HexDigit(v % 16)];
    }
  }

  // ---------------------------------------------------------------------------
  // Texture blocks

  /** What a texture block carries: its id (in the block name and after the header),
      the DDS FourCC, dimensions and header size, and the pixel data after the 136
      bytes the loop reads. */
  datatype TextureSpec = TextureSpec(id: u32, fourCC: u32, width: u32, height: u32, ddsSize: u32, pixels: seq<byte>)

  predicate ValidSpec(t: TextureSpec)
  {
    1 <= t.id <= TotalTextures && DxtOfFourCC(t.fourCC).Ok?
    && |t.pixels| < TwoTo32 - 36 - TextureBlockReadSize
  }

  /** How many bytes the block takes. */
  function BlockLength(t: TextureSpec): nat
  {
    TextureBlockReadSize + |t.pixels|
  }

  /** `blockSize`: everything after the 36-byte header. */
  function BlockSizeOf(t: TextureSpec): u32
    requires ValidSpec(t)
  {
    BlockLength(t) - BlockHeaderSize
  }

  /** The words from byte 32: `blockSize`, the `G3DHiResTexture` fields `size`, `id`,
      `type` and `dxSize`, then the DDS header's `dwSize`, `dwFlags`, `dwHeight` and
      `dwWidth`. */
  function TextureWords(t: TextureSpec): seq<u32>
    requires ValidSpec(t)
  {
    [BlockSizeOf(t), 0, t.id, 0, 0, t.ddsSize, 0, t.height, t.width]
  }

  /** A texture block as a pack stores it: the id in hexadecimal as its name, the
      words above, the rest of the DDS header up to its FourCC, the FourCC, the
      pixels. */
  function EncodeTextureBlock(t: TextureSpec): (r: seq<byte>)
    requires ValidSpec(t)
    ensures |r| == BlockLength(t)
  {
    ToHexName(t.id);
    NameField(ToHex(t.id)) + Words(TextureWords(t)) + Zeros(64) + EncodeLE32(t.fourCC) + t.pixels
  }

  /** The upload the block describes when it starts at `at`. */
  function UploadOf(t: TextureSpec, at: nat): TextureUpload
    requires ValidSpec(t)
  {
    var format := DxtOfFourCC(t.fourCC).value;
    var width := U32ToI32(t.width);
    var height := U32ToI32(t.height);
    TextureUpload(t.id - 1, format, width, height, CompressedSize(format, width, height), at + 52 + t.ddsSize)
  }

  /** The fields the texture loop reads from a block at `at`. */
  predicate TextureFieldsAt(file: seq<byte>, at: nat, t: TextureSpec)
    requires ValidSpec(t)
  {
    && at + BlockLength(t) <= |file|
    && ReadBlockHeader(file, at).name == ToHex(t.id)
    && LE32(file, at + 32) == BlockSizeOf(t)
    && LE32(file, at + 40) == t.id
    && LE32(file, at + 52) == t.ddsSize
    && LE32(file, at + 60) == t.height
    && LE32(file, at + 64) == t.width
    && LE32(file, at + 132) == t.fourCC
  }

  /** Where the parts of a texture block held at `at` lie. */
  lemma TexturePartsAt(file: seq<byte>, at: nat, t: TextureSpec)
    requires ValidSpec(t) && HoldsAt(file, at, EncodeTextureBlock(t))
    ensures NameText(ToHex(t.id))
    ensures at + BlockLength(t) <= |file|
    ensures HoldsAt(file, at, NameField(ToHex(t.id)))
    ensures HoldsAt(file, at + 32, Words(TextureWords(t)))
    ensures HoldsAt(file, at + 132, EncodeLE32(t.fourCC))
  {
    ToHexName(t.id);
    var name := NameField(ToHex(t.id));
    var words := Words(TextureWords(t));
    var four := EncodeLE32(t.fourCC);
    HoldsAtSplit(file, at, name + words + Zeros(64) + four, t.pixels);
    HoldsAtSplit(file, at, name + words + Zeros(64), four);
    HoldsAtSplit(file, at, name + words, Zeros(64));
    HoldsAtSplit(file, at, name, words);
  }

  lemma TextureFieldsOfEncode(file: seq<byte>, at: nat, t: TextureSpec)
    requires ValidSpec(t) && HoldsAt(file, at, EncodeTextureBlock(t))
    ensures TextureFieldsAt(file, at, t)
  {
    TexturePartsAt(file, at, t);
    HoldsAtName(file, at, ToHex(t.id));
    var words := TextureWords(t);
    HoldsAtWords(file, at + 32, words, 0);
    HoldsAtWords(file, at + 32, words, 2);
    HoldsAtWords(file, at + 32, words, 5);
    HoldsAtWords(file, at + 32, words, 7);
    HoldsAtWords(file, at + 32, words, 8);
    HoldsAtWord(file, at + 132, t.fourCC);
  }

  lemma LoadTextureBlockOfFields(file: seq<byte>, at: nat, t: TextureSpec)
    requires ValidSpec(t) && TextureFieldsAt(file, at, t)
    ensures LoadTextureBlock(file, at) == Ok((UploadOf(t, at), at + BlockLength(t)))
  {
    ParseTextureIdOfToHex(t.id);
  }

  /** A texture block loads back to the upload it describes, and the loop moves on to
      the byte after it. */
  lemma LoadTextureBlockOfEncode(file: seq<byte>, at: nat, t: TextureSpec)
    requires ValidSpec(t) && HoldsAt(file, at, EncodeTextureBlock(t))
    ensures LoadTextureBlock(file, at) == Ok((UploadOf(t, at), at + BlockLength(t)))
  {
    TextureFieldsOfEncode(file, at, t);
    LoadTextureBlockOfFields(file, at, t);
  }

  // ---------------------------------------------------------------------------
  // Runs of texture blocks

  /** How many bytes a run of blocks takes. */
  function RunLength(ts: seq<TextureSpec>): nat
  {
    if |ts| == 0 then 0 else BlockLength(ts[0]) + RunLength(ts[1..])
  }

  /** Texture blocks one after another. */
  function TextureBlocks(ts: seq<TextureSpec>): (r: seq<byte>)
    requires forall i :: 0 <= i < |ts| ==> ValidSpec(ts[i])
    ensures |r| == RunLength(ts)
  {
    if |ts| == 0 then [] else EncodeTextureBlock(ts[0]) + TextureBlocks(ts[1..])
  }

  /** The uploads of a run whose first block starts at `at`, each block starting where
      the previous one ends. */
  function UploadsOf(ts: seq<TextureSpec>, at: nat): (r: seq<TextureUpload>)
    requires forall i :: 0 <= i < |ts| ==> ValidSpec(ts[i])
    ensures |r| == |ts|
  {
    if |ts| == 0 then [] else [UploadOf(ts[0], at)] + UploadsOf(ts[1..], at + BlockLength(ts[0]))
  }

  /** Where each block of a run starts when the first starts at `at`, and where the
      run ends. */
  function Starts(ts: seq<TextureSpec>, at: nat): (r: seq<nat>)
    ensures |r| == |ts| + 1 && r[0] == at && r[|ts|] == at + RunLength(ts)
  {
    if |ts| == 0 then [at] else [at] + Starts(ts[1..], at + BlockLength(ts[0]))
  }

  /** Each block starts where the previous one ends. */
  lemma {:induction false} StartsStep(ts: seq<TextureSpec>, at: nat, k: nat)
    requires k < |ts|
    ensures Starts(ts, at)[k + 1] == Starts(ts, at)[k] + BlockLength(ts[k])
    decreases k
  {
    if k > 0 {
      StartsStep(ts[1..], at + BlockLength(ts[0]), k - 1);
    }
  }

  /** Upload `k` is that of block `k` where it starts. */
  lemma {:induction false} UploadsOfIndex(ts: seq<TextureSpec>, at: nat, k: nat)
    requires forall i :: 0 <= i < |ts| ==> ValidSpec(ts[i])
    requires k < |ts|
    ensures UploadsOf(ts, at)[k] == UploadOf(ts[k], Starts(ts, at)[k])
    decreases k
  {
    if k > 0 {
      UploadsOfIndex(ts[1..], at + BlockLength(ts[0]), k - 1);
    }
  }

  /** Block `k` of a run sits where the previous one ends. */
  lemma {:induction false} BlockHolds(file: seq<byte>, at: nat, ts: seq<TextureSpec>, k: nat)
    requires forall i :: 0 <= i < |ts| ==> ValidSpec(ts[i])
    requires HoldsAt(file, at, TextureBlocks(ts)) && k < |ts|
    ensures HoldsAt(file, Starts(ts, at)[k], EncodeTextureBlock(ts[k]))
    decreases k
  {
    var next := at + BlockLength(ts[0]);
    HoldsAtSplit(file, at, EncodeTextureBlock(ts[0]), TextureBlocks(ts[1..]));
    if k > 0 {
      BlockHolds(file, next, ts[1..], k - 1);
      assert Starts(ts, at) == [at] + Starts(ts[1..], next);
      assert ts[k] == ts[1..][k - 1];
    }
  }

  /** A block held at `s` loads to `u` and hands on to `e`. */
  lemma BlockLoadsTo(file: seq<byte>, t: TextureSpec, s: nat, u: TextureUpload, e: nat)
    requires ValidSpec(t) && HoldsAt(file, s, EncodeTextureBlock(t))
    requires u == UploadOf(t, s) && e == s + BlockLength(t)
    ensures LoadTextureBlock(file, s) == Ok((u, e))
  {
    LoadTextureBlockOfEncode(file, s, t);
  }

  /** Block `k` of an encoded run loads to upload `k` and hands on to block `k + 1`. */
  lemma BlockOfRun(file: seq<byte>, at: nat, ts: seq<TextureSpec>, k: nat)
    requires forall i :: 0 <= i < |ts| ==> ValidSpec(ts[i])
    requires HoldsAt(file, at, TextureBlocks(ts)) && k < |ts|
    ensures LoadTextureBlock(file, Starts(ts, at)[k]) == Ok((UploadsOf(ts, at)[k], Starts(ts, at)[k + 1]))
  {
    BlockHolds(file, at, ts, k);
    UploadsOfIndex(ts, at, k);
    StartsStep(ts, at, k);
    BlockLoadsTo(file, ts[k], Starts(ts, at)[k], UploadsOf(ts, at)[k], Starts(ts, at)[k + 1]);
  }

  /** Every block of an encoded run loads and hands on to the next. */
  lemma RunBlocks(file: seq<byte>, at: nat, ts: seq<TextureSpec>)
    requires forall i :: 0 <= i < |ts| ==> ValidSpec(ts[i])
    requires HoldsAt(file, at, TextureBlocks(ts))
    ensures forall k :: 0 <= k < |ts| ==>
      LoadTextureBlock(file, Starts(ts, at)[k]) == Ok((UploadsOf(ts, at)[k], Starts(ts, at)[k + 1]))
  {
    forall k | 0 <= k < |ts|
      ensures LoadTextureBlock(file, Starts(ts, at)[k]) == Ok((UploadsOf(ts, at)[k], Starts(ts, at)[k + 1]))
    {
      BlockOfRun(file, at, ts, k);
    }
  }

  // ---------------------------------------------------------------------------
  // The texture loop over any step

  /** What one iteration of the loop does: load the block at an offset, giving its
      upload and the offset of the next. */
  type BlockStep = nat -> Result<(TextureUpload, nat), string>

  /** The texture loop of `LoadTextures` with the block loader as a parameter. */
  function StepLoop(step: BlockStep, at: nat, n: nat): (r: Result<(seq<TextureUpload>, nat), string>)
    ensures r.Ok? ==> |r.value.0| == n
    decreases n
  {
    if n == 0 then Ok(([], at))
    else
      var first :- step(at);
      var rest :- StepLoop(step, first.1, n - 1);
      Ok(([first.0] + rest.0, rest.1))
  }

  /** `LoadTextures` is the loop over `LoadTextureBlock`. */
  lemma {:induction false} LoadTexturesIsLoop(file: seq<byte>, at: nat, n: nat)
    ensures LoadTextures(file, at, n) == StepLoop((a: nat) => LoadTextureBlock(file, a), at, n)
    decreases n
  {
    if n > 0 {
      var first := LoadTextureBlock(file, at);
      if first.Ok? {
        var next := first.value.1;
        LoadTexturesIsLoop(file, next, n - 1);
        var rest := LoadTextures(file, next, n - 1);
        if rest.Ok? {
          assert LoadTextures(file, at, n) == Ok(([first.value.0] + rest.value.0, rest.value.1));
        } else {
          assert LoadTextures(file, at, n) == Err(rest.error);
        }
      } else {
        assert LoadTextures(file, at, n) == Err(first.error);
      }
    }
  }

  /** A loop whose every step `k` goes from `offs[k]` to `offs[k + 1]` with upload
      `us[k]` collects the uploads in order and ends at the last offset. */
  lemma {:induction false} StepLoopOfChain(step: BlockStep, offs: seq<nat>, us: seq<TextureUpload>)
    requires |offs| == |us| + 1
    requires forall k :: 0 <= k < |us| ==> step(offs[k]) == Ok((us[k], offs[k + 1]))
    ensures StepLoop(step, offs[0], |us|) == Ok((us, offs[|us|]))
    decreases |us|
  {
    if |us| > 0 {
      StepLoopOfChain(step, offs[1..], us[1..]);
      assert us == [us[0]] + us[1..];
    }
  }

  /** A chain of blocks that load, each where the previous hands on, loads through the
      texture loop. */
  lemma LoadTexturesOfChain(file: seq<byte>, offs: seq<nat>, us: seq<TextureUpload>)
    requires |offs| == |us| + 1
    requires forall k :: 0 <= k < |us| ==> LoadTextureBlock(file, offs[k]) == Ok((us[k], offs[k + 1]))
    ensures LoadTextures(file, offs[0], |us|) == Ok((us, offs[|us|]))
  {
    StepLoopOfChain((a: nat) => LoadTextureBlock(file, a), offs, us);
    LoadTexturesIsLoop(file, offs[0], |us|);
  }

  /** A run of texture blocks loads to their uploads in order and leaves the loop at
      the byte after the last. */
  lemma LoadTexturesOfEncode(file: seq<byte>, at: nat, ts: seq<TextureSpec>)
    requires forall i :: 0 <= i < |ts| ==> ValidSpec(ts[i])
    requires HoldsAt(file, at, TextureBlocks(ts))
    ensures LoadTextures(file, at, |ts|) == Ok((UploadsOf(ts, at), at + RunLength(ts)))
  {
    RunBlocks(file, at, ts);
    LoadTexturesOfChain(file, Starts(ts, at), UploadsOf(ts, at));
  }

  // ---------------------------------------------------------------------------
  // A MESHES block

  /** The `G3DMeshes` header and offset table, then one L3D mini header that every
      table entry points at. */
  const MeshTableEnd: nat := 8 + 4 * ModelCount
  const MeshesDataSize: nat := MeshTableEnd + 12
  const MeshesBlockSize: nat := BlockHeaderSize + MeshesDataSize

  /** `n` copies of `v`. */
  function Repeat<T>(v: T, n: nat): (r: seq<T>)
    ensures |r| == n && forall i :: 0 <= i < n ==> r[i] == v
  {
    seq(n, _ => v)
  }

  /** A MESHES block whose 626 table entries all point just past the table, where an
      L3D mini header of size `l3dSize` sits. */
  function EncodeMeshesBlock(l3dSize: u32): (r: seq<byte>)
    ensures |r| == MeshesBlockSize
  {
    NameField("MESHES") + Words([MeshesDataSize]) + AsciiBytes(ModelMagic) + Words([ModelCount])
      + Words(Repeat(MeshTableEnd, ModelCount)) + Zeros(8) + Words([l3dSize])
  }

  /** The model every table entry of a MESHES block at `at` refers to. */
  function SharedModel(at: nat, l3dSize: u32): ModelRef
  {
    ModelRef(at + BlockHeaderSize + MeshTableEnd, l3dSize)
  }

  /** Where the parts of a MESHES block held at `at` lie. */
  lemma MeshesPartsAt(file: seq<byte>, at: nat, l3dSize: u32)
    requires HoldsAt(file, at, EncodeMeshesBlock(l3dSize))
    ensures at + MeshesBlockSize <= |file|
    ensures HoldsAt(file, at, NameField("MESHES"))
    ensures HoldsAt(file, at + 32, Words([MeshesDataSize]))
    ensures HoldsAt(file, at + 36, AsciiBytes(ModelMagic))
    ensures HoldsAt(file, at + 40, Words([ModelCount]))
    ensures HoldsAt(file, at + 44, Words(Repeat(MeshTableEnd, ModelCount)))
    ensures HoldsAt(file, at + 36 + MeshTableEnd + 8, Words([l3dSize]))
  {
    var a := NameField("MESHES");
    var b := Words([MeshesDataSize]);
    var c := AsciiBytes(ModelMagic);
    var d := Words([ModelCount]);
    var e := Words(Repeat(MeshTableEnd, ModelCount));
    HoldsAtSplit(file, at, a + b + c + d + e + Zeros(8), Words([l3dSize]));
    HoldsAtSplit(file, at, a + b + c + d + e, Zeros(8));
    HoldsAtSplit(file, at, a + b + c + d, e);
    HoldsAtSplit(file, at, a + b + c, d);
    HoldsAtSplit(file, at, a + b, c);
    HoldsAtSplit(file, at, a, b);
  }

  /** Every table entry from `i` on points at the same model. */
  lemma {:induction false} ModelRefsOfTable(file: seq<byte>, data: nat, i: nat, l3dSize: u32)
    requires i <= ModelCount && data + MeshTableEnd + 12 <= |file|
    requires forall k :: 0 <= k < ModelCount ==> LE32(file, data + 8 + 4 * k) == MeshTableEnd
    requires LE32(file, data + MeshTableEnd + 8) == l3dSize
    ensures ModelRefs(file, data, i) == Ok(Repeat(ModelRef(data + MeshTableEnd, l3dSize), ModelCount - i))
    decreases ModelCount - i
  {
    if i < ModelCount {
      assert LE32(file, data + 8 + 4 * i) == MeshTableEnd;
      ModelRefsOfTable(file, data, i + 1, l3dSize);
      var m := ModelRef(data + MeshTableEnd, l3dSize);
      assert Repeat(m, ModelCount - i) == [m] + Repeat(m, ModelCount - (i + 1));
    }
  }

  /** The fields the block walk reads from a MESHES block at `at`. */
  lemma MeshesFieldsAt(file: seq<byte>, at: nat, l3dSize: u32)
    requires HoldsAt(file, at, EncodeMeshesBlock(l3dSize))
    ensures at + MeshesBlockSize <= |file|
    ensures ReadBlockHeader(file, at) == BlockHeader("MESHES", MeshesDataSize)
    ensures Chars(file[at + 36..at + 40]) == ModelMagic
    ensures LE32(file, at + 40) == ModelCount
    ensures forall k :: 0 <= k < ModelCount ==> LE32(file, at + 36 + 8 + 4 * k) == MeshTableEnd
    ensures LE32(file, at + 36 + MeshTableEnd + 8) == l3dSize
  {
    MeshesPartsAt(file, at, l3dSize);
    HoldsAtName(file, at, "MESHES");
    HoldsAtWords(file, at + 32, [MeshesDataSize], 0);
    HoldsAtWords(file, at + 40, [ModelCount], 0);
    HoldsAtWords(file, at + 36 + MeshTableEnd + 8, [l3dSize], 0);
    var magic := file[at + 36..at + 40];
    forall i | 0 <= i < 4
      ensures CharOf(magic[i]) == ModelMagic[i]
    {
      HoldsAtIndex(file, at + 36, AsciiBytes(ModelMagic), i);
    }
    forall k | 0 <= k < ModelCount
      ensures LE32(file, at + 36 + 8 + 4 * k) == MeshTableEnd
    {
      HoldsAtWords(file, at + 44, Repeat(MeshTableEnd, ModelCount), k);
    }
  }

  /** A MESHES block that ends the file: the walk lists its 626 models and stops. */
  lemma WalkBlocksOfMeshes(file: seq<byte>, at: nat, l3dSize: u32)
    requires HoldsAt(file, at, EncodeMeshesBlock(l3dSize)) && at + MeshesBlockSize == |file|
    ensures WalkBlocks(file, at) == Ok(Repeat(SharedModel(at, l3dSize), ModelCount))
  {
    MeshesFieldsAt(file, at, l3dSize);
    ModelRefsOfTable(file, at + BlockHeaderSize, 0, l3dSize);
    assert NextBlock(file, at) == |file|;
    assert Repeat(SharedModel(at, l3dSize), ModelCount) + [] == Repeat(SharedModel(at, l3dSize), ModelCount);
  }

  // ---------------------------------------------------------------------------
  // A whole pack

  /** A file holding a pack: 8 bytes of magic, 110 texture blocks, then, at
      `meshesAt`, a MESHES block that ends the file. */
  predicate PackHolds(file: seq<byte>, ts: seq<TextureSpec>, meshesAt: nat, l3dSize: u32)
  {
    && |ts| == TotalTextures
    && (forall i :: 0 <= i < |ts| ==> ValidSpec(ts[i]))
    && HoldsAt(file, 8, TextureBlocks(ts))
    && meshesAt == 8 + RunLength(ts)
    && HoldsAt(file, meshesAt, EncodeMeshesBlock(l3dSize))
    && |file| == meshesAt + MeshesBlockSize
  }

  /** The pack such a file describes: the 110 uploads in block order, the 626 models
      of its MESHES block, `_meshCount` 0. */
  function PackOf(ts: seq<TextureSpec>, meshesAt: nat, l3dSize: u32): MeshPack
    requires forall i :: 0 <= i < |ts| ==> ValidSpec(ts[i])
  {
    MeshPack(UploadsOf(ts, 8), Repeat(SharedModel(meshesAt, l3dSize), ModelCount), 0)
  }

  /** A file whose texture loop and block walk both succeed loads as a pack of their
      results. */
  lemma LoadMeshPackOf(file: seq<byte>, n: nat, uploads: seq<TextureUpload>, next: nat, models: seq<ModelRef>)
    requires |file| > 0 && n == TotalTextures
    requires LoadTextures(file, 8, n) == Ok((uploads, next))
    requires WalkBlocks(file, next) == Ok(models)
    ensures LoadMeshPack(file) == Ok(MeshPack(uploads, models, 0))
  {
    LionheadMagicLengthIsEight();
  }

  /** The texture loop over the run of blocks after the magic ends where the run
      does. */
  lemma {:induction false} TexturesOfPack(file: seq<byte>, ts: seq<TextureSpec>, meshesAt: nat)
    requires forall i :: 0 <= i < |ts| ==> ValidSpec(ts[i])
    requires HoldsAt(file, 8, TextureBlocks(ts)) && meshesAt == 8 + RunLength(ts)
    ensures LoadTextures(file, 8, |ts|) == Ok((UploadsOf(ts, 8), meshesAt))
  {
    LoadTexturesOfEncode(file, 8, ts);
  }

  /** A file holding a pack loads as that pack. */
  lemma {:induction false} LoadMeshPackOfParts(file: seq<byte>, ts: seq<TextureSpec>, meshesAt: nat, l3dSize: u32)
    requires PackHolds(file, ts, meshesAt, l3dSize)
    ensures LoadMeshPack(file) == Ok(PackOf(ts, meshesAt, l3dSize))
  {
    TexturesOfPack(file, ts, meshesAt);
    WalkBlocksOfMeshes(file, meshesAt, l3dSize);
    LoadMeshPackOf(file, |ts|, UploadsOf(ts, 8), meshesAt, Repeat(SharedModel(meshesAt, l3dSize), ModelCount));
  }

  /** The mesh counts of a file that loads with 626 models. */
  lemma MeshCountsOf(file: seq<byte>, pack: MeshPack)
    requires LoadMeshPack(file) == Ok(pack) && |pack.models| == ModelCount
    ensures var p := LoadMeshPack(file);
      && p.Ok? && |p.value.models| == ModelCount
      && GetMeshCountAsWritten(p.value) == 0 && GetMeshCount(p.value) == ModelCount
  {
  }

  /** The input behind the mesh-count finding: a file holding a pack loads with 626
      models and reports 0 meshes as written, while the corrected count is 626. */
  lemma {:induction false} MeshCountWitness(file: seq<byte>, ts: seq<TextureSpec>, meshesAt: nat, l3dSize: u32)
    requires PackHolds(file, ts, meshesAt, l3dSize)
    ensures var p := LoadMeshPack(file);
      && p.Ok? && |p.value.models| == ModelCount
      && GetMeshCountAsWritten(p.value) == 0 && GetMeshCount(p.value) == ModelCount
  {
    LoadMeshPackOfParts(file, ts, meshesAt, l3dSize);
    MeshCountsOf(file, PackOf(ts, meshesAt, l3dSize));
  }

  /** `c` follows `a` and `b` in `a + b + c`. */
  lemma ConcatParts(file: seq<byte>, a: seq<byte>, b: seq<byte>, c: seq<byte>)
    requires file == a + b + c
    ensures HoldsAt(file, |a|, b) && HoldsAt(file, |a| + |b|, c)
  {
    assert file[0..0 + |file|] == file;
    HoldsAtOfSlice(file, 0, file);
    HoldsAtSplit(file, 0, a + b, c);
    HoldsAtSplit(file, 0, a, b);
  }

  /** One 4×4 DXT1 texture for each of the first `n` slots. */
  function SampleTextures(n: nat): (ts: seq<TextureSpec>)
    requires n <= TotalTextures
    ensures |ts| == n && forall i :: 0 <= i < |ts| ==> ValidSpec(ts[i])
  {
    seq(n, i requires 0 <= i < n => TextureSpec(i + 1, FourCCCode('D', 'X', 'T', '1'), 4, 4, 124, []))
  }

  /** The magic, a run of 110 texture blocks and a MESHES block, one after another,
      hold a pack. */
  lemma {:induction false} PackFile(ts: seq<TextureSpec>, l3dSize: u32) returns (file: seq<byte>, meshesAt: nat)
    requires |ts| == TotalTextures && forall i :: 0 <= i < |ts| ==> ValidSpec(ts[i])
    ensures PackHolds(file, ts, meshesAt, l3dSize)
  {
    var magic: seq<byte> := [0, 0, 0, 0, 0, 0, 0, 0];
    file := magic + TextureBlocks(ts) + EncodeMeshesBlock(l3dSize);
    meshesAt := 8 + RunLength(ts);
    ConcatParts(file, magic, TextureBlocks(ts), EncodeMeshesBlock(l3dSize));
  }

  /** Some file loads as a pack with 626 models, so the witness above is not
      vacuous. */
  lemma SomePackLoads(l3dSize: u32)
    ensures exists file :: LoadMeshPack(file).Ok? && |LoadMeshPack(file).value.models| == ModelCount
  {
    var ts := SampleTextures(TotalTextures);
    var file, meshesAt := PackFile(ts, l3dSize);
    MeshCountWitness(file, ts, meshesAt, l3dSize);
  }
}
