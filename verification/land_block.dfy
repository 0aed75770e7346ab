/** A block of landscape (src/3D/LandBlock.cpp): `Load` copies a 2520-byte
    `LH3DLandBlock` record, and `buildVertexList` triangulates the block's 16×16 cells
    into 1536 vertices, two triangles per cell, with the cell's split flag choosing the
    diagonal. The island the block belongs to (its cells, materials and the two size
    constants) is the parameter `Island`. */
module LandBlocks {
  import opened Common

  // ---------------------------------------------------------------------------
  // Loading

  /** `LH3DLandCell`: eight bytes. */
  datatype Cell = Cell(r: byte, g: byte, b: byte, l: byte, altitude: byte, saveColor: byte, flags1: byte, flags2: byte)

  const CellBytes: nat := 8
  /** 17 × 17 cells are stored although only 16 × 16 are drawn. */
  const CellCount: nat := 289
  /** `sizeof(LH3DLandBlock)`: the cells, 20 words, two 3×4 float matrices and 8 more
      words. */
  const BlockRecordSize: nat := 2520
  /** The offset of `index`; `mapX`, `mapZ`, `blockX` and `blockZ` follow it, four
      bytes each. */
  const IndexOffset: nat := 2312

  const SizeMismatch := "LandBlock size does not match struct size."

  /** What `Load` keeps: the index, the block position as `glm::ivec2` (the unsigned
      fields converted to `int`), the map position as the bit patterns of its two
      floats, and the cells. */
  datatype LandBlock = LandBlock(index: u32, blockX: i32, blockZ: i32, mapXBits: u32, mapZBits: u32, cells: seq<Cell>)

  function CellAt(block: seq<byte>, at: nat): Cell
    requires at + CellBytes <= |block|
  {
    Cell(block[at], block[at + 1], block[at + 2], block[at + 3], block[at + 4], block[at + 5], block[at + 6], block[at + 7])
  }

  /** `LandBlock::Load` on the record's bytes, their count being `block_size`. */
  function Load(block: seq<byte>): (r: Result<LandBlock, string>)
    ensures r.Ok? <==> |block| == BlockRecordSize
    ensures r.Err? ==> r.error == SizeMismatch
    ensures r.Ok? ==> (|r.value.cells| == CellCount
      && forall i :: 0 <= i < CellCount ==> r.value.cells[i] == CellAt(block, 8 * i))
    ensures r.Ok? ==> (r.value.index == LE32(block, IndexOffset)
      && r.value.mapXBits == LE32(block, IndexOffset + 4) && r.value.mapZBits == LE32(block, IndexOffset + 8)
      && I32ToU32(r.value.blockX) == LE32(block, IndexOffset + 12)
      && I32ToU32(r.value.blockZ) == LE32(block, IndexOffset + 16))
  {
    if |block| != BlockRecordSize then Err(SizeMismatch)
    else
      var cells := seq(CellCount, i requires 0 <= i < CellCount => CellAt(block, 8 * i));
      var bx := U32ToI32(LE32(block, IndexOffset + 12));
      var bz := U32ToI32(LE32(block, IndexOffset + 16));
      U32I32RoundTrip(LE32(block, IndexOffset + 12));
      U32I32RoundTrip(LE32(block, IndexOffset + 16));
      Ok(LandBlock(LE32(block, IndexOffset), bx, bz, LE32(block, IndexOffset + 4), LE32(block, IndexOffset + 8), cells))
  }

  // The record written back, for the round trip.

  function CellByte(c: Cell, k: nat): byte
    requires k < CellBytes
  {
    [c.r, c.g, c.b, c.l, c.altitude, c.saveColor, c.flags1, c.flags2][k]
  }

  /** The five words after the cells, in record order. */
  function Words(lb: LandBlock): seq<u32>
  {
    [lb.index, lb.mapXBits, lb.mapZBits, I32ToU32(lb.blockX), I32ToU32(lb.blockZ)]
  }

  function RecordByte(lb: LandBlock, j: nat): byte
    requires |lb.cells| == CellCount && j < BlockRecordSize
  {
    if j < IndexOffset then CellByte(lb.cells[j / CellBytes], j % CellBytes)
    else if j < IndexOffset + 20 then EncodeLE32(Words(lb)[(j - IndexOffset) / 4])[(j - IndexOffset) % 4]
    else 0
  }

  /** A record holding the block, every field `Load` does not keep being zero. */
  function Encode(lb: LandBlock): (r: seq<byte>)
    requires |lb.cells| == CellCount
    ensures |r| == BlockRecordSize
  {
    seq(BlockRecordSize, j requires 0 <= j < BlockRecordSize => RecordByte(lb, j))
  }

  /** Quotient and remainder of `d · q + r` for the three divisors in use. */
  lemma DivModOf(d: nat, q: nat, r: nat)
    requires d == 4 || d == 8 || d == 16
    requires 0 <= r < d
    ensures (d * q + r) / d == q && (d * q + r) % d == r
  {
    if d == 4 {
      assert (4 * q + r) / 4 == q;
    } else if d == 8 {
      assert (8 * q + r) / 8 == q;
    } else {
      assert (16 * q + r) / 16 == q;
    }
  }

  lemma EncodedCellByte(lb: LandBlock, i: nat, k: nat)
    requires |lb.cells| == CellCount && i < CellCount && k < CellBytes
    ensures Encode(lb)[8 * i + k] == CellByte(lb.cells[i], k)
  {
    DivModOf(CellBytes, i, k);
    assert RecordByte(lb, 8 * i + k) == CellByte(lb.cells[i], k);
  }

  lemma EncodedCell(lb: LandBlock, i: nat)
    requires |lb.cells| == CellCount && i < CellCount
    ensures CellAt(Encode(lb), 8 * i) == lb.cells[i]
  {
    var e := Encode(lb);
    var c := lb.cells[i];
    EncodedCellByte(lb, i, 0);
    EncodedCellByte(lb, i, 1);
    EncodedCellByte(lb, i, 2);
    EncodedCellByte(lb, i, 3);
    EncodedCellByte(lb, i, 4);
    EncodedCellByte(lb, i, 5);
    EncodedCellByte(lb, i, 6);
    EncodedCellByte(lb, i, 7);
  }

  lemma EncodedWord(lb: LandBlock, w: nat)
    requires |lb.cells| == CellCount && w < 5
    ensures LE32(Encode(lb), IndexOffset + 4 * w) == Words(lb)[w]
  {
    var e := Encode(lb);
    var v := Words(lb)[w];
    forall k | 0 <= k < 4
      ensures e[IndexOffset + 4 * w + k] == EncodeLE32(v)[k]
    {
      DivModOf(4, w, k);
      assert IndexOffset + 4 * w + k - IndexOffset == 4 * w + k;
    }
    LE32OfEncode(v);
  }

  /** Loading a written record gives back the block. */
  lemma {:induction false} LoadOfEncode(lb: LandBlock)
    requires |lb.cells| == CellCount
    ensures Load(Encode(lb)) == Ok(lb)
  {
    var e := Encode(lb);
    var r := Load(e).value;
    forall i | 0 <= i < CellCount
      ensures r.cells[i] == lb.cells[i]
    {
      EncodedCell(lb, i);
    }
    assert r.cells == lb.cells;
    EncodedWord(lb, 0);
    EncodedWord(lb, 1);
    EncodedWord(lb, 2);
    EncodedWord(lb, 3);
    EncodedWord(lb, 4);
    assert r.index == lb.index && r.mapXBits == lb.mapXBits && r.mapZBits == lb.mapZBits;
    I32U32RoundTrip(lb.blockX);
    I32U32RoundTrip(lb.blockZ);
    I32U32RoundTrip(r.blockX);
    I32U32RoundTrip(r.blockZ);
    assert r.blockX == lb.blockX && r.blockZ == lb.blockZ;
  }

  lemma I32U32RoundTrip(v: i32)
    ensures U32ToI32(I32ToU32(v)) == v
  {}

  // ---------------------------------------------------------------------------
  // Triangulation

  /** The corners of a cell: top is the smaller z, left the smaller x. */
  datatype Corner = TL | TR | BL | BR

  /** How far a corner is from the cell's top-left corner, in cells: `(dx, dz)`. */
  function CornerOffset(c: Corner): (int, int)
  {
    match c
    case TL => (0, 0)
    case TR => (1, 0)
    case BL => (0, 1)
    case BR => (1, 1)
  }

  /** The three unit weight vectors `(1,0,0)`, `(0,1,0)` and `(0,0,1)`. */
  datatype Axis = First | Second | Third

  function AxisIndex(a: Axis): nat
  {
    match a
    case First => 0
    case Second => 1
    case Third => 2
  }

  function WeightVector(a: Axis): Vec3
  {
    match a
    case First => Vec3(1.0, 0.0, 0.0)
    case Second => Vec3(0.0, 1.0, 0.0)
    case Third => Vec3(0.0, 0.0, 1.0)
  }

  /** What the triangulation reads of a `LandCell`. */
  datatype LandCellView = LandCellView(altitude: nat, split: bool, light: nat, alpha: real)

  /** A `MapMaterial`: the two material indices and their blend coefficient. */
  datatype MapMaterial = MapMaterial(first: nat, second: nat, coefficient: nat)

  /** The island around the block: `GetCell`, the material of a global cell (the
      country's map material at the altitude plus the noise there), `CellSize` and
      `HeightUnit`. */
  datatype Island = Island(
    getCell: (int, int) -> LandCellView,
    material: (int, int) -> MapMaterial,
    cellSize: real,
    heightUnit: real)

  /** A `LandVertex`: position, blend weight, the three materials of its triangle in
      order, and the light and alpha of its own cell. */
  datatype LandVertex = LandVertex(position: Vec3, weight: Vec3, materials: seq<MapMaterial>, light: nat, alpha: real)

  /** The corners of the six vertices of a cell, two clockwise triangles. */
  function CornerOrder(split: bool): (r: seq<Corner>)
    ensures |r| == 6
  {
    if !split then [TR, BR, TL, BR, BL, TL] else [BL, TL, TR, TR, BR, BL]
  }

  /** The weight of each of the six vertices. */
  function WeightOrder(split: bool): (r: seq<Axis>)
    ensures |r| == 6
  {
    if !split then [Second, Third, First, Third, Second, First] else [First, Second, Third, Third, Second, First]
  }

  /** The corners whose materials triangle `t` carries, in order. */
  function MaterialCorners(split: bool, t: nat): (r: seq<Corner>)
    requires t < 2
    ensures |r| == 3
  {
    if !split then (if t == 0 then [TL, TR, BR] else [TL, BL, BR])
    else (if t == 0 then [BL, TL, TR] else [BL, BR, TR])
  }

  function TriangleCorners(split: bool, t: nat): (r: set<Corner>)
    requires t < 2
  {
    var c := CornerOrder(split);
    {c[3 * t], c[3 * t + 1], c[3 * t + 2]}
  }

  /** The split flag picks the diagonal: the two triangles share exactly the corners of
      one diagonal, top-left to bottom-right when the cell is not split and bottom-left
      to top-right when it is, and together they cover all four corners. */
  lemma TrianglesShareDiagonal(split: bool)
    ensures TriangleCorners(split, 0) * TriangleCorners(split, 1) == if split then {BL, TR} else {TL, BR}
    ensures TriangleCorners(split, 0) + TriangleCorners(split, 1) == {TL, TR, BL, BR}
    ensures |TriangleCorners(split, 0)| == 3 && |TriangleCorners(split, 1)| == 3
  {}

  /** Twice the signed area of a triangle of corners in the (x, z) plane. */
  function Orientation(a: Corner, b: Corner, c: Corner): int
  {
    var (ax, az) := CornerOffset(a);
    var (bx, bz) := CornerOffset(b);
    var (cx, cz) := CornerOffset(c);
    (bx - ax) * (cz - az) - (bz - az) * (cx - ax)
  }

  /** All four triangle shapes wind the same way and have half a cell's area. */
  lemma SameWinding(split: bool, t: nat)
    requires t < 2
    ensures var c := CornerOrder(split); Orientation(c[3 * t], c[3 * t + 1], c[3 * t + 2]) == 1
  {}

  /** Each triangle's three weights are the three unit vectors in some order. */
  lemma WeightsArePermutation(split: bool, t: nat)
    requires t < 2
    ensures var w := WeightOrder(split); multiset{w[3 * t], w[3 * t + 1], w[3 * t + 2]} == multiset{First, Second, Third}
  {}

  /** A vertex's unit weight picks, among its triangle's three materials, the material
      of the vertex's own corner. */
  lemma WeightPicksOwnMaterial(split: bool, k: nat)
    requires k < 6
    ensures MaterialCorners(split, k / 3)[AxisIndex(WeightOrder(split)[k])] == CornerOrder(split)[k]
  {}

  /** `make_vert` for the vertex at corner `c` of local cell `(x, z)`, whose global top
      left cell is `(gx, gz)`. */
  function MakeVertex(island: Island, gx: int, gz: int, x: int, z: int, c: Corner, w: Axis, mats: seq<Corner>): (v: LandVertex)
    ensures |v.materials| == |mats|
  {
    var (dx, dz) := CornerOffset(c);
    var cell := island.getCell(gx + dx, gz + dz);
    var position := Vec3((x + dx) as real * island.cellSize, cell.altitude as real * island.heightUnit, (z + dz) as real * island.cellSize);
    var materials := seq(|mats|, i requires 0 <= i < |mats| =>
      island.material(gx + CornerOffset(mats[i]).0, gz + CornerOffset(mats[i]).1));
    LandVertex(position, WeightVector(w), materials, cell.light, cell.alpha)
  }

  /** The six vertices of local cell `(x, z)` of a block whose first global cell is
      `(bx, bz)`; the top-left cell's split flag decides the triangulation. */
  function CellVertices(island: Island, bx: int, bz: int, x: int, z: int): (r: seq<LandVertex>)
    ensures |r| == 6
  {
    var split := island.getCell(bx + x, bz + z).split;
    seq(6, k requires 0 <= k < 6 =>
      MakeVertex(island, bx + x, bz + z, x, z, CornerOrder(split)[k], WeightOrder(split)[k], MaterialCorners(split, k / 3)))
  }

  /** Each vertex of a cell sits at its corner, at the corner cell's height, and carries
      that cell's light and alpha; its weight selects its own corner's material. */
  lemma CellVertexAtCorner(island: Island, bx: int, bz: int, x: int, z: int, k: nat)
    requires k < 6
    ensures var split := island.getCell(bx + x, bz + z).split;
      var c := CornerOrder(split)[k];
      var (dx, dz) := CornerOffset(c);
      var v := CellVertices(island, bx, bz, x, z)[k];
      var cell := island.getCell(bx + x + dx, bz + z + dz);
      v.position == Vec3((x + dx) as real * island.cellSize, cell.altitude as real * island.heightUnit, (z + dz) as real * island.cellSize)
      && v.light == cell.light && v.alpha == cell.alpha
      && |v.materials| == 3
      && v.materials[AxisIndex(WeightOrder(split)[k])] == island.material(bx + x + dx, bz + z + dz)
  {
    var split := island.getCell(bx + x, bz + z).split;
    WeightPicksOwnMaterial(split, k);
  }

  const VertexCount: nat := 1536

  /** The vertices of the first `n` cells visited, x outer and z inner: cell number
      `c` is `(c / 16, c % 16)`. */
  function VerticesOf(island: Island, bx: int, bz: int, n: nat): (r: seq<LandVertex>)
    requires n <= 256
    ensures |r| == 6 * n
    decreases n
  {
    if n == 0 then []
    else
      VerticesOf(island, bx, bz, n - 1) + CellVertices(island, bx, bz, (n - 1) / 16, (n - 1) % 16)
  }

  lemma VerticesOfNext(island: Island, bx: int, bz: int, n: nat, x: nat, z: nat)
    requires x < 16 && z < 16 && n == 16 * x + z
    ensures VerticesOf(island, bx, bz, n + 1) == VerticesOf(island, bx, bz, n) + CellVertices(island, bx, bz, x, z)
  {
    DivModOf(16, x, z);
  }

  /** `buildVertexList`: the outer loop over x. */
  method BuildVertexList(island: Island, blockX: int, blockZ: int) returns (verts: seq<LandVertex>)
    ensures verts == VerticesOf(island, 16 * blockX, 16 * blockZ, 256)
    ensures |verts| == VertexCount
  {
    var bx := blockX * 16;
    var bz := blockZ * 16;
    verts := [];
    ghost var n := 0;
    var x := 0;
    while x < 16
      invariant 0 <= x <= 16 && n == 16 * x
      invariant verts == VerticesOf(island, bx, bz, n)
    {
      verts := BuildColumn(island, bx, bz, x, n, verts);
      n := n + 16;
      x := x + 1;
    }
    assert bx == 16 * blockX && bz == 16 * blockZ && n == 256;
  }

  /** The inner loop of `buildVertexList` over z, for one x, appending to `verts`. */
  method BuildColumn(island: Island, bx: int, bz: int, x: nat, ghost start: nat, verts0: seq<LandVertex>) returns (verts: seq<LandVertex>)
    requires x < 16 && start == 16 * x && verts0 == VerticesOf(island, bx, bz, start)
    ensures verts == VerticesOf(island, bx, bz, start + 16)
  {
    verts := verts0;
    ghost var n := start;
    var z := 0;
    while z < 16
      invariant 0 <= z <= 16 && n == 16 * x + z
      invariant verts == VerticesOf(island, bx, bz, n)
    {
      var cell := CellVertices(island, bx, bz, x, z);
      VerticesOfNext(island, bx, bz, n, x, z);
      assert verts + cell == VerticesOf(island, bx, bz, n + 1);
      verts := verts + cell;
      n := n + 1;
      z := z + 1;
    }
  }

  /** The vertices of cell `(x, z)` are the six starting at `6 · (16x + z)`. */
  lemma {:induction false} VertexOfCell(island: Island, bx: int, bz: int, n: nat, x: nat, z: nat, k: nat)
    requires n <= 256 && x < 16 && z < 16 && 16 * x + z < n && k < 6
    ensures VerticesOf(island, bx, bz, n)[6 * (16 * x + z) + k] == CellVertices(island, bx, bz, x, z)[k]
    decreases n
  {
    var c := 16 * x + z;
    var prev := VerticesOf(island, bx, bz, n - 1);
    var last := CellVertices(island, bx, bz, (n - 1) / 16, (n - 1) % 16);
    assert VerticesOf(island, bx, bz, n) == prev + last;
    if c < n - 1 {
      VertexOfCell(island, bx, bz, n - 1, x, z, k);
      assert 6 * c + k < |prev|;
    } else {
      DivModOf(16, x, z);
      assert 6 * c + k == |prev| + k;
    }
  }
}
