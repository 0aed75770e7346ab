/** The resource loaders (src/Resources/Loaders.cpp): the FourCC of a packed texture
    picks its block-compression format, a raw texture's resolution and format are
    guessed from its byte count, the L3D mesh loader dispatches on the lower-cased
    extension, and a sound resource is filled from a sample header.
    Reading files, inflating and the mesh parsers are parameters. */
module Loaders {
  import opened Common
  import opened Strings
  import opened SoundPacks

  datatype Format = R8 | RGB8 | BlockCompression1 | BlockCompression2 | BlockCompression3
  datatype Wrapping = Repeat
  datatype Filter = Linear

  /** What `Texture2D::Create` is given. */
  datatype Texture2D = Texture2D(name: string, width: u16, height: u16, layers: nat, format: Format,
                                 wrapping: Wrapping, filter: Filter, data: seq<byte>, size: u32)

  /** A texture of a mesh pack: the FourCC as the characters before its first NUL, the
      DDS header's width and height, and the compressed data. */
  datatype G3DTexture = G3DTexture(fourCC: string, width: u32, height: u32, ddsData: seq<byte>)

  // ---------------------------------------------------------------------------
  // Packed textures

  /** The format a FourCC selects; any FourCC other than DXT1, DXT3 and DXT5 throws. */
  function FormatOfFourCC(code: string): (r: Result<Format, string>)
    ensures r.Ok? <==> code == "DXT1" || code == "DXT3" || code == "DXT5"
    ensures r.Ok? ==> r.value in {BlockCompression1, BlockCompression2, BlockCompression3}
    ensures r.Err? ==> r.error == "Unsupported compressed texture format"
  {
    if code == "DXT1" then Ok(BlockCompression1)
    else if code == "DXT3" then Ok(BlockCompression2)
    else if code == "DXT5" then Ok(BlockCompression3)
    else Err("Unsupported compressed texture format")
  }

  /** The FourCC of a block-compression format: the reading of the table from the other
      side. */
  function FourCCOf(f: Format): Option<string>
  {
    match f
    case BlockCompression1 => Some("DXT1")
    case BlockCompression2 => Some("DXT3")
    case BlockCompression3 => Some("DXT5")
    case _ => None
  }

  /** The FourCC table is a bijection between the three codes and the three
      block-compression formats. */
  lemma FourCCRoundTrip(f: Format, code: string)
    ensures FourCCOf(f).Some? ==> FormatOfFourCC(FourCCOf(f).value) == Ok(f)
    ensures FormatOfFourCC(code).Ok? ==> FourCCOf(FormatOfFourCC(code).value) == Some(code)
  {}

  /** `Texture2DLoader` from a pack: one layer, repeat wrapping, linear filtering, the
      header's dimensions cast to 16 bits and the data's size cast to 32 bits. */
  function LoadPackTexture(name: string, t: G3DTexture): (r: Result<Texture2D, string>)
    ensures r.Ok? <==> FormatOfFourCC(t.fourCC).Ok?
    ensures r.Err? ==> r.error == FormatOfFourCC(t.fourCC).error
    ensures r.Ok? ==> r.value.format == FormatOfFourCC(t.fourCC).value && FourCCOf(r.value.format) == Some(t.fourCC)
    ensures r.Ok? ==> r.value.name == name && r.value.data == t.ddsData && r.value.layers == 1
    ensures r.Ok? ==> r.value.width % TwoTo16 == t.width % TwoTo16 && r.value.height % TwoTo16 == t.height % TwoTo16
    ensures r.Ok? ==> r.value.size % TwoTo32 == |t.ddsData| % TwoTo32
  {
    var format :- FormatOfFourCC(t.fourCC);
    FourCCRoundTrip(format, t.fourCC);
    Ok(Texture2D(name, TruncateU16(t.width), TruncateU16(t.height), 1, format, Repeat, Linear,
                 t.ddsData, |t.ddsData| % TwoTo32))
  }

  // ---------------------------------------------------------------------------
  // Raw textures

  /** The resolutions tried, in order. */
  const Resolutions: seq<nat> := [256, 40, 32, 14, 12, 6]

  function BytesPerPixel(f: Format): nat
  {
    if f == RGB8 then 3 else 1
  }

  /** A square texture of side `res` holds `size` bytes in one of the two formats. */
  predicate Fits(size: nat, res: nat)
  {
    size == res * res || size == 3 * res * res
  }

  /** The first resolution from position `i` on whose square, or three times whose
      square, is `size`; within one resolution the RGB8 test comes second and wins. */
  function FirstFit(size: nat, i: nat): (r: Option<(nat, Format)>)
    requires i <= |Resolutions|
    ensures r.Some? ==> exists j :: i <= j < |Resolutions| && Resolutions[j] == r.value.0
    ensures r.Some? ==> r.value.1 in {R8, RGB8} && size == r.value.0 * r.value.0 * BytesPerPixel(r.value.1)
    ensures r.None? <==> forall j :: i <= j < |Resolutions| ==> !Fits(size, Resolutions[j])
    decreases |Resolutions| - i
  {
    if i == |Resolutions| then None
    else
      var res := Resolutions[i];
      if size == 3 * res * res then Some((res, RGB8))
      else if size == res * res then Some((res, R8))
      else FirstFit(size, i + 1)
  }

  /** No resolution tried before the one found fits. */
  lemma {:induction false} FirstFitIsFirst(size: nat, i: nat, k: nat)
    requires i <= k < |Resolutions|
    requires FirstFit(size, i).Some? && Resolutions[k] == FirstFit(size, i).value.0
    ensures forall j :: i <= j < k ==> !Fits(size, Resolutions[j])
    decreases k - i
  {
    if !Fits(size, Resolutions[i]) {
      if i < k {
        assert FirstFit(size, i + 1) == FirstFit(size, i);
        FirstFitIsFirst(size, i + 1, k);
        forall j | i <= j < k
          ensures !Fits(size, Resolutions[j])
        {
          if j > i {
            assert i + 1 <= j < k;
          }
        }
      }
    } else {
      assert FirstFit(size, i).value.0 == Resolutions[i];
      ResolutionsDistinct(i, k);
    }
  }

  /** No resolution is tried twice. */
  lemma ResolutionsDistinct(a: nat, b: nat)
    requires a < |Resolutions| && b < |Resolutions| && Resolutions[a] == Resolutions[b]
    ensures a == b
  {
  }

  /** The search loop of `Texture2DLoader` from disk, as the source writes it: the
      width and format of the last iteration that ran, and whether one matched. */
  method RawTextureSearch(size: nat) returns (found: bool, width: nat, format: Format)
    ensures found <==> FirstFit(size, 0).Some?
    ensures found ==> (width, format) == FirstFit(size, 0).value
  {
    found := false;
    format := R8;
    width := 0;
    var i := 0;
    while i < |Resolutions|
      invariant 0 <= i <= |Resolutions|
      invariant !found ==> FirstFit(size, 0) == FirstFit(size, i)
      invariant found ==> i > 0 && FirstFit(size, 0) == Some((width, format))
      decreases |Resolutions| - i
    {
      if found {
        break;
      }
      var res := Resolutions[i];
      width := res;
      var pixelCount := res * res;
      if size == pixelCount {
        format := R8;
        found := true;
      }
      if size == 3 * pixelCount {
        format := RGB8;
        found := true;
      }
      i := i + 1;
    }
  }

  /** `Texture2DLoader` from disk: a square texture named after the file's stem under
      "raw", or an error naming the byte count when no resolution fits it. */
  function LoadRawTexture(path: string, data: seq<byte>): (r: Result<Texture2D, string>)
    ensures r.Ok? <==> FirstFit(|data|, 0).Some?
    ensures r.Err? ==> r.error == "Unable to load texture: Ambiguous size and format: " + ToDecimal(|data|)
    ensures r.Ok? ==> r.value.width == r.value.height && r.value.width in Resolutions
    ensures r.Ok? ==> |data| == r.value.width * r.value.height * BytesPerPixel(r.value.format)
    ensures r.Ok? ==> r.value.name == "raw/" + Stem(Filename(path)) && r.value.data == data && r.value.layers == 1
  {
    match FirstFit(|data|, 0)
    case None => Err("Unable to load texture: Ambiguous size and format: " + ToDecimal(|data|))
    case Some((res, format)) =>
      assert res <= 256 by {
        assert forall j :: 0 <= j < |Resolutions| ==> Resolutions[j] <= 256;
      }
      Ok(Texture2D("raw/" + Stem(Filename(path)), res, res, 1, format, Repeat, Linear, data, |data| % TwoTo32))
  }

  /** The twelve byte counts accepted are pairwise distinct, so at most one resolution
      and format fit any count and the order of the search does not change the answer. */
  lemma RawSizesUnambiguous(size: nat)
    ensures forall a, b :: 0 <= a < |Resolutions| && 0 <= b < |Resolutions| && a != b ==>
      Resolutions[a] * Resolutions[a] != Resolutions[b] * Resolutions[b]
      && 3 * Resolutions[a] * Resolutions[a] != 3 * Resolutions[b] * Resolutions[b]
    ensures forall a, b :: 0 <= a < |Resolutions| && 0 <= b < |Resolutions| ==>
      Resolutions[a] * Resolutions[a] != 3 * Resolutions[b] * Resolutions[b]
  {
    var sq := [65536, 1600, 1024, 196, 144, 36];
    assert forall a :: 0 <= a < |Resolutions| ==> Resolutions[a] * Resolutions[a] == sq[a];
  }

  // ---------------------------------------------------------------------------
  // L3D meshes

  datatype MeshContent = Unloaded | FileContent(path: string) | BufferContent(bytes: seq<byte>)

  /** An `L3DMesh` with its debug name and what it was loaded from. */
  datatype L3DMesh = L3DMesh(debugName: string, content: MeshContent)

  /** The mesh parser on a file and on a buffer (true on success), and `zip::Inflate`
      with the expected decompressed size. */
  datatype MeshIo = MeshIo(
    loadFile: string -> bool,
    loadBuffer: seq<byte> -> bool,
    inflate: (seq<byte>, u32) -> seq<byte>)

  /** `L3DLoader` from a buffer: the parser's failure throws. */
  function LoadL3DFromBuffer(debugName: string, data: seq<byte>, io: MeshIo): (r: Result<L3DMesh, string>)
    ensures r.Ok? <==> io.loadBuffer(data)
    ensures r.Ok? ==> r.value == L3DMesh(debugName, BufferContent(data))
  {
    if io.loadBuffer(data) then Ok(L3DMesh(debugName, BufferContent(data)))
    else Err("Unable to load mesh")
  }

  /** The extension `L3DLoader` dispatches on. */
  function L3DKind(path: string): string
  {
    LowerCase(Extension(Filename(path)))
  }

  /** `L3DLoader` from disk. ".l3d" is parsed from the file; ".zzz" holds a 32-bit
      little-endian decompressed size followed by the compressed bytes; any other
      extension gives an unloaded mesh and no error. `file` is the file's content; a
      file too short for the size field is reported as an error. */
  function LoadL3DFromDisk(path: string, file: seq<byte>, io: MeshIo): (r: Result<L3DMesh, string>)
    ensures r.Ok? ==> r.value.debugName == Stem(Filename(path))
    ensures L3DKind(path) == ".l3d" ==> (r.Ok? <==> io.loadFile(path)) && (r.Ok? ==> r.value.content == FileContent(path))
    ensures L3DKind(path) == ".zzz" ==> (r.Ok? <==> |file| >= 4 && io.loadBuffer(io.inflate(file[4..], LE32(file, 0))))
    ensures L3DKind(path) == ".zzz" && r.Ok? ==> r.value.content == BufferContent(io.inflate(file[4..], LE32(file, 0)))
    ensures L3DKind(path) != ".l3d" && L3DKind(path) != ".zzz" ==> r.Ok? && r.value.content == Unloaded
  {
    var name := Stem(Filename(path));
    var ext := L3DKind(path);
    if ext == ".l3d" then
      if io.loadFile(path) then Ok(L3DMesh(name, FileContent(path))) else Err("Unable to load mesh")
    else if ext == ".zzz" then
      if |file| < 4 then Err("Unable to read decompressed size")
      else
        var decompressed := io.inflate(file[4..], LE32(file, 0));
        if io.loadBuffer(decompressed) then Ok(L3DMesh(name, BufferContent(decompressed)))
        else Err("Unable to load decompressed mesh")
    else Ok(L3DMesh(name, Unloaded))
  }

  lemma LowerCharIdempotent(c: char)
    ensures LowerChar(LowerChar(c)) == LowerChar(c)
    ensures LowerChar(c) == '/' <==> c == '/'
    ensures LowerChar(c) == '.' <==> c == '.'
  {}

  lemma LowerCaseOfPrefix(s: string, n: nat)
    requires n <= |s|
    ensures LowerCase(s)[..n] == LowerCase(s[..n]) && LowerCase(s)[n..] == LowerCase(s[n..])
  {}

  /** Lower-casing commutes with taking the file name. */
  lemma {:induction false} FilenameOfLowerCase(p: string)
    ensures Filename(LowerCase(p)) == LowerCase(Filename(p))
    decreases |p|
  {
    if |p| > 0 {
      var n := |p|;
      var c := p[n - 1];
      if c == '/' {
        LowerCharIdempotent(c);
        assert LowerCase(p)[n - 1] == '/';
      } else {
        var init := p[..n - 1];
        assert init + [c] == p by { PrefixSnoc(p, n - 1); }
        FilenameOfLowerCase(init);
        FilenameSnoc(init, c);
      }
    }
  }

  /** One step of the induction above: a last character that is not a separator. */
  lemma FilenameSnoc(p: string, c: char)
    requires c != '/' && Filename(LowerCase(p)) == LowerCase(Filename(p))
    ensures Filename(LowerCase(p + [c])) == LowerCase(Filename(p + [c]))
  {
    LowerCharIdempotent(c);
    LowerCaseSnoc(p, c);
    FilenameExtends(p, c);
    FilenameExtends(LowerCase(p), LowerChar(c));
    LowerCaseSnoc(Filename(p), c);
  }

  lemma LowerCaseSnoc(s: string, c: char)
    ensures LowerCase(s + [c]) == LowerCase(s) + [LowerChar(c)]
  {
    assert forall i | 0 <= i < |s| :: (s + [c])[i] == s[i];
  }

  /** A character other than the separator extends the file name. */
  lemma FilenameExtends(p: string, c: char)
    requires c != '/'
    ensures Filename(p + [c]) == Filename(p) + [c]
  {
    assert (p + [c])[..|p|] == p;
  }

  /** Lower-casing leaves the position of the last dot where it was. */
  lemma {:induction false} LastDotOfLowerCase(name: string)
    ensures LastDot(LowerCase(name)) == LastDot(name)
    decreases |name|
  {
    if |name| > 0 {
      LowerCharIdempotent(name[|name| - 1]);
      LowerCaseOfPrefix(name, |name| - 1);
      LastDotOfLowerCase(name[..|name| - 1]);
    }
  }

  /** Lower-casing commutes with taking the extension. */
  lemma ExtensionOfLowerCase(name: string)
    ensures Extension(LowerCase(name)) == LowerCase(Extension(name))
  {
    var l := LowerCase(name);
    LastDotOfLowerCase(name);
    if |name| == 1 {
      LowerCharIdempotent(name[0]);
    } else if |name| == 2 {
      LowerCharIdempotent(name[0]);
      LowerCharIdempotent(name[1]);
    }
    match LastDot(name)
    case None =>
    case Some(i) =>
      LowerCaseOfPrefix(name, i);
  }

  /** The dispatch ignores the case of the path: "MESH.ZZZ" is loaded as "mesh.zzz" is. */
  lemma L3DKindIgnoresCase(path: string)
    ensures L3DKind(LowerCase(path)) == L3DKind(path)
  {
    FilenameOfLowerCase(path);
    ExtensionOfLowerCase(Filename(path));
    var e := Extension(Filename(path));
    forall i | 0 <= i < |e| ensures LowerCase(LowerCase(e))[i] == LowerCase(e)[i] {
      LowerCharIdempotent(e[i]);
    }
  }

  // ---------------------------------------------------------------------------
  // Sounds

  /** The `audio::Sound` resource. */
  datatype ResourceSound = ResourceSound(
    name: string, priority: int, sampleRate: i32, bitRate: int, volume: real,
    pitch: int, pitchDeviation: int, playType: int, buffer: seq<seq<byte>>)

  /** `SoundLoader`: the header's file-name component as the name, its numeric fields
      copied, a bit rate of 0 and full volume. */
  function LoadSound(header: Sample, buffer: seq<seq<byte>>): (r: ResourceSound)
    ensures r.name == Filename(header.audioSampleName) && '/' !in r.name
    ensures r.bitRate == 0 && r.volume == 1.0 && r.buffer == buffer
    ensures r.priority == header.priority && r.pitch == header.pitch && r.pitchDeviation == header.pitchDeviation
    ensures r.sampleRate % TwoTo32 == header.sampleRate % TwoTo32 && r.playType == header.loopType
  {
    ResourceSound(Filename(header.audioSampleName), header.priority, U32ToI32(header.sampleRate), 0, 1.0,
                  header.pitch, header.pitchDeviation, header.loopType, buffer)
  }

  /** The resource loader and the sound pack agree on a sample: the same key, priority,
      sample rate, pitch, pitch deviation and loop type. */
  lemma LoadSoundAgreesWithPack(header: Sample, data: seq<byte>)
    ensures var r := LoadSound(header, [data]);
      var s := PlainSound(header, data);
      r.name == s.id && r.priority == s.priority && r.sampleRate == s.sampleRate
      && r.pitch == s.pitch && r.pitchDeviation == s.pitchDeviation && r.playType == s.loopType
  {}
}
