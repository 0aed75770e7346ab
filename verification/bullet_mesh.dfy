/** The adapter that hands a land block's vertices to Bullet
    (src/Dynamics/LandBlockBulletMeshInterface.h): the constructor copies the first
    three floats of every vertex record and numbers the vertices in order, and the
    read-only lock describes the two arrays as one subpart of `numverts / 3` triangles.
    Floats are kept as their 32-bit patterns. */
module BulletMeshes {
  import opened Common

  /** The three floats of a vertex, as bit patterns. */
  type Float3 = (u32, u32, u32)

  /** `_vertices` and `_indices`. */
  datatype MeshInterface = MeshInterface(vertices: seq<Float3>, indices: seq<u16>)

  /** The largest value of the `uint16_t` loop counter. */
  const U16Max: nat := 0xFFFF

  /** The first three floats of the vertex record at byte `at`. */
  function VertexAt(data: seq<byte>, at: nat): Float3
    requires at + 12 <= |data|
  {
    (LE32(data, at), LE32(data, at + 4), LE32(data, at + 8))
  }

  /** What the constructor reads: a record of 12 bytes at each multiple of `stride`
      below the vertex count. */
  predicate RecordsInData(data: seq<byte>, count: nat, stride: nat)
  {
    count == 0 || (count - 1) * stride + 12 <= |data|
  }

  /** The constructor: `vertex_count / stride` vertices and indices; vertex `i` copies
      the floats at byte `i · stride` and index `i` is `i`. When the count exceeds what
      a `uint16_t` can count to, the loop never ends: `None`. A zero stride divides by
      zero, hence the precondition. */
  function NewMeshInterface(data: seq<byte>, vertexCount: u32, stride: nat): (r: Option<MeshInterface>)
    requires stride > 0
    requires vertexCount / stride <= U16Max ==> RecordsInData(data, vertexCount / stride, stride)
    ensures r.None? <==> vertexCount / stride > U16Max
    ensures r.Some? ==> |r.value.vertices| == |r.value.indices| == vertexCount / stride
    ensures r.Some? ==> forall i :: 0 <= i < |r.value.indices| ==> r.value.indices[i] == i
    ensures r.Some? ==> forall i :: 0 <= i < |r.value.vertices| ==>
      r.value.vertices[i] == RecordAt(data, |r.value.vertices|, stride, i)
  {
    var n := vertexCount / stride;
    if n > U16Max then None else Some(Copied(data, n, stride))
  }

  /** The arrays the constructor fills for `n` vertices. */
  function Copied(data: seq<byte>, n: nat, stride: nat): (r: MeshInterface)
    requires n <= U16Max && RecordsInData(data, n, stride)
    ensures |r.vertices| == |r.indices| == n
    ensures forall i :: 0 <= i < n ==> r.indices[i] == i
    ensures forall i :: 0 <= i < n ==> r.vertices[i] == RecordAt(data, n, stride, i)
  {
    MeshInterface(
      seq(n, i requires 0 <= i < n => RecordAt(data, n, stride, i)),
      seq(n, i requires 0 <= i < n => i))
  }

  /** Record `i` below `count` lies inside the data. */
  lemma RecordInData(data: seq<byte>, count: nat, stride: nat, i: nat)
    requires RecordsInData(data, count, stride) && i < count
    ensures i * stride + 12 <= |data|
  {
    assert (count - 1) * stride - i * stride == (count - 1 - i) * stride;
  }

  /** The vertex copied from record `i`. */
  function RecordAt(data: seq<byte>, count: nat, stride: nat, i: nat): Float3
    requires RecordsInData(data, count, stride) && i < count
  {
    RecordInData(data, count, stride, i);
    VertexAt(data, i * stride)
  }

  /** The constructor's loop, with its `uint16_t` counter. */
  method Construct(data: seq<byte>, vertexCount: u32, stride: nat) returns (m: MeshInterface)
    requires stride > 0 && vertexCount / stride <= U16Max
    requires RecordsInData(data, vertexCount / stride, stride)
    ensures NewMeshInterface(data, vertexCount, stride) == Some(m)
  {
    var n := vertexCount / stride;
    var vertices: seq<Float3> := seq(n, _ => (0, 0, 0));
    var indices: seq<u16> := seq(n, _ => 0);
    var i: u16 := 0;
    while i < n
      invariant i <= n && |vertices| == n && |indices| == n
      invariant forall j :: 0 <= j < i ==> vertices[j] == RecordAt(data, n, stride, j)
      invariant forall j :: 0 <= j < i ==> indices[j] == j
    {
      vertices := vertices[i := RecordAt(data, n, stride, i)];
      indices := indices[i := i];
      i := (i + 1) % TwoTo16;
    }
    m := MeshInterface(vertices, indices);
    assert m.vertices == NewMeshInterface(data, vertexCount, stride).value.vertices;
    assert m.indices == NewMeshInterface(data, vertexCount, stride).value.indices;
  }

  /** What a constructed interface keeps: as many indices as vertices, index `i` being
      `i`, and no more than the counter can number. */
  predicate Valid(m: MeshInterface)
  {
    |m.vertices| == |m.indices| <= U16Max
    && forall i :: 0 <= i < |m.indices| ==> m.indices[i] == i
  }

  lemma ConstructedIsValid(data: seq<byte>, vertexCount: u32, stride: nat)
    requires stride > 0
    requires vertexCount / stride <= U16Max ==> RecordsInData(data, vertexCount / stride, stride)
    ensures NewMeshInterface(data, vertexCount, stride).Some? ==> Valid(NewMeshInterface(data, vertexCount, stride).value)
  {}

  datatype ScalarType = PhyFloat | PhyShort

  /** The out-parameters of `getLockedReadOnlyVertexIndexBase`. */
  datatype Lock = Lock(
    vertexBase: seq<Float3>, numVerts: int, vertexType: ScalarType, stride: nat,
    indexBase: seq<u16>, indexStride: nat, numFaces: int, indicesType: ScalarType)

  /** `sizeof(float[3])` and `sizeof(uint16_t)`. */
  const VertexBytes: nat := 12
  const IndexBytes: nat := 2

  /** `getLockedReadOnlyVertexIndexBase`: the one subpart, so `subpart` must be 0 (an
      assertion in the source). */
  function GetLockedReadOnlyVertexIndexBase(m: MeshInterface, subpart: int): (r: Lock)
    requires Valid(m) && subpart == 0
    ensures r.vertexBase == m.vertices && r.indexBase == m.indices
    ensures r.numVerts == |m.vertices| && r.vertexType == PhyFloat && r.indicesType == PhyShort
    ensures r.stride == 3 * 4 && r.indexStride == 3 * IndexBytes
    ensures 3 * r.numFaces <= r.numVerts < 3 * r.numFaces + 3
  {
    Lock(m.vertices, |m.vertices|, PhyFloat, VertexBytes, m.indices, 3 * IndexBytes, |m.indices| / 3, PhyShort)
  }

  /** Face `f` of the locked buffers is the three consecutive vertices from `3f`: with
      identity indices, the triangles are the vertex list taken three at a time. */
  lemma {:induction false} FacesAreConsecutiveTriples(m: MeshInterface, f: nat)
    requires Valid(m) && f < GetLockedReadOnlyVertexIndexBase(m, 0).numFaces
    ensures var l := GetLockedReadOnlyVertexIndexBase(m, 0);
      var first := f * l.indexStride / IndexBytes;
      first + 2 < |l.indexBase|
      && l.indexBase[first] == 3 * f && l.indexBase[first + 1] == 3 * f + 1 && l.indexBase[first + 2] == 3 * f + 2
      && l.indexBase[first + 2] < l.numVerts
  {
    var l := GetLockedReadOnlyVertexIndexBase(m, 0);
    assert f * l.indexStride == 6 * f;
    assert 6 * f / IndexBytes == 3 * f;
  }

  /** `getNumSubParts`. */
  function NumSubParts(m: MeshInterface): nat
  {
    1
  }

  /** The members that do nothing: the writable lock, the two unlocks and the two
      preallocations. */
  datatype NoOpCall =
    | LockWritable(subpart: int)
    | UnlockVertexBase(subpart: int)
    | UnlockReadOnlyVertexBase(subpart: int)
    | PreallocateVertices(count: int)
    | PreallocateIndices(count: int)

  function Call(m: MeshInterface, c: NoOpCall): MeshInterface
  {
    match c
    case LockWritable(_) => m
    case UnlockVertexBase(_) => m
    case UnlockReadOnlyVertexBase(_) => m
    case PreallocateVertices(_) => m
    case PreallocateIndices(_) => m
  }

  function CallAll(m: MeshInterface, cs: seq<NoOpCall>): MeshInterface
  {
    if |cs| == 0 then m else CallAll(Call(m, cs[0]), cs[1..])
  }

  /** Any sequence of those calls leaves the interface, and so what the read-only lock
      and the subpart count report, as they were. The source's bodies are empty, so each
      `Call` is the identity by definition; the induction only carries that through the
      sequence. */
  lemma {:induction false} NoOpsChangeNothing(m: MeshInterface, cs: seq<NoOpCall>)
    requires Valid(m)
    ensures CallAll(m, cs) == m
    ensures GetLockedReadOnlyVertexIndexBase(CallAll(m, cs), 0) == GetLockedReadOnlyVertexIndexBase(m, 0)
    ensures NumSubParts(CallAll(m, cs)) == 1
    decreases |cs|
  {
    if |cs| > 0 {
      NoOpsChangeNothing(Call(m, cs[0]), cs[1..]);
    }
  }

  /** A land block's 1536 vertices, handed over with one record per stride, make 512
      faces that use every vertex. */
  lemma LandBlockFaces(data: seq<byte>, stride: nat)
    requires stride > 0 && 1536 * stride < TwoTo32 && RecordsInData(data, 1536, stride)
    ensures var m := NewMeshInterface(data, 1536 * stride, stride);
      m.Some? && Valid(m.value) && GetLockedReadOnlyVertexIndexBase(m.value, 0).numFaces == 512
      && 3 * GetLockedReadOnlyVertexIndexBase(m.value, 0).numFaces == |m.value.vertices|
  {
    assert 1536 * stride / stride == 1536;
  }
}
