/**
 * The inputs of `UpdateVoxelsJob` (Runtime/VoxelWindJobs.cs) and its
 * read-only lookups into the previous frame's grid: `GetVoxelIndex`,
 * `GetVoxelVector` and `InterpolateVelocity`.
 *
 * The job reads `voxelGrid.Voxels` and writes only `updatedVoxels`, so the
 * grid it reads is a fixed sequence here.
 */
module UpdateJob {
  import opened UnityMath
  import opened Utilities
  import opened WindData
  import opened BuildVoxelsJob

  /** Everything one run of the update job reads. */
  datatype Job = Job(
    voxels: seq<Voxel>,
    grid: VoxelGrid,
    time: real,
    deltaTime: real,
    globalWinds: seq<GlobalWindData>,
    localWinds: seq<LocalWindData>,
    windColliders: seq<WindColliderData>,
    maths: MathLib)

  /** The grid is non-empty, the voxel sequence has one entry per cell and the voxel size is usable as a divisor. */
  predicate GridShaped(job: Job) {
    var d := job.grid.VoxelDensity;
    && 0 < d.x && 0 < d.y && 0 < d.z
    && |job.voxels| == CellCount(d)
    && job.grid.VoxelSize != 0.0
  }

  /** The divisor of the collider-shadow falloff for a wind of the given speed. */
  function ShadowDivisor(c: WindColliderData, windSpeed: real): real {
    c.ShadowDistance * c.Radius * 2.0 * windSpeed
  }

  predicate ShadowsDefined(colliders: seq<WindColliderData>, windSpeed: real) {
    forall i :: 0 <= i < |colliders| ==> ShadowDivisor(colliders[i], windSpeed) != 0.0
  }

  /**
   * The containment test of an active local wind divides by its extent: the
   * cylinder height of a directional wind is its speed, the sphere of an omni
   * or vortex wind has its radius.
   */
  predicate LocalWindDefined(w: LocalWindData) {
    w.IsActive ==> if w.WindType == LocalWindType.Directional then w.Speed != 0.0 else w.Radius != 0.0
  }

  predicate LocalWindsDefined(ws: seq<LocalWindData>) {
    forall i :: 0 <= i < |ws| ==> LocalWindDefined(ws[i])
  }

  /** Every active global wind can divide by the shadow divisor of every collider. */
  predicate GlobalWindsDefined(colliders: seq<WindColliderData>, ws: seq<GlobalWindData>) {
    forall i :: 0 <= i < |ws| && ws[i].IsActive ==> ShadowsDefined(colliders, ws[i].Speed)
  }

  /** No division in the job divides by zero. */
  predicate Valid(job: Job) {
    && GridShaped(job)
    && LocalWindsDefined(job.localWinds)
    && GlobalWindsDefined(job.windColliders, job.globalWinds)
  }

  /**
   * The cell-space position of a world position: relative to the matrix
   * translation, in voxel units, shifted by half the density (integer halves).
   */
  function GridPosition(job: Job, position: Float3): Float3
    requires job.grid.VoxelSize != 0.0
  {
    var d := job.grid.VoxelDensity;
    var half := Int3(CsDiv(d.x, 2), CsDiv(d.y, 2), CsDiv(d.z, 2));
    Add3(Div3(Sub3(position, Translation(job.grid.WorldMatrix)), job.grid.VoxelSize), ToFloat3(half))
  }

  /** `GetVoxelIndex`: the linear index of the cell under `position`, clamped to `[0, Voxels.Length]`. */
  function GetVoxelIndex(job: Job, position: Float3): (r: int)
    requires job.grid.VoxelSize != 0.0
    ensures 0 <= r <= |job.voxels|
  {
    var g := GridPosition(job, position);
    var d := job.grid.VoxelDensity;
    ClampInt(g.x.Floor + g.y.Floor * d.x + g.z.Floor * (d.x * d.y), 0, |job.voxels|)
  }

  /** `GetVoxelVector`: the velocity of the cell at `(x, y, z)` in the previous frame. */
  function GetVoxelVector(job: Job, x: int, y: int, z: int): Float3
    requires var d := job.grid.VoxelDensity; 0 <= x + y * d.x + z * (d.x * d.y) < |job.voxels|
  {
    var d := job.grid.VoxelDensity;
    job.voxels[x + y * d.x + z * (d.x * d.y)].Velocity.xyz()
  }

  /** An interpolation weight: the offset of `p` from `lo` over the span `hi - lo`, or 0 for an empty span. */
  function Weight(p: int, lo: int, hi: int): real {
    if hi - lo > 0 then (p - lo) as real / (hi - lo) as real else 0.0
  }

  /** The corner coordinates of `InterpolateVelocity` are clamped into the grid. */
  function Corner(c: Int3, d: Int3): (r: Int3)
    requires 0 < d.x && 0 < d.y && 0 < d.z
    ensures InBounds(r, d)
  {
    Int3(ClampInt(c.x, 0, d.x - 1), ClampInt(c.y, 0, d.y - 1), ClampInt(c.z, 0, d.z - 1))
  }

  /** The address `GetVoxelVector` reads for an in-bounds corner is a valid index. */
  lemma CornerAddress(job: Job, c: Int3)
    requires GridShaped(job) && InBounds(c, job.grid.VoxelDensity)
    ensures var d := job.grid.VoxelDensity;
      && c.x + c.y * d.x + c.z * (d.x * d.y) == GetIndex(c, d)
      && 0 <= GetIndex(c, d) < |job.voxels|
  {
    var d := job.grid.VoxelDensity;
    assert c.z * (d.x * d.y) == c.z * d.x * d.y;
    IndexInRange(c, d);
  }

  /**
   * `InterpolateVelocity`: trilinear blending of the eight cells around the
   * cell under `sourcePosition`, with corners clamped into the grid.
   */
  function InterpolateVelocity(job: Job, sourcePosition: Float3): Float3
    requires GridShaped(job)
  {
    var d := job.grid.VoxelDensity;
    InterpolateAround(job, GetPositionIndex(GetVoxelIndex(job, sourcePosition), d))
  }

  /** The blend of `InterpolateVelocity` once the cell under the source position has been decoded to `p`. */
  function InterpolateAround(job: Job, p: Int3): Float3
    requires GridShaped(job)
  {
    var d := job.grid.VoxelDensity;
    var c0 := Corner(p, d);
    var c1 := Corner(Int3(p.x + 1, p.y + 1, p.z + 1), d);
    Blend8(job, c0, c1, Float3(Weight(p.x, c0.x, c1.x), Weight(p.y, c0.y, c1.y), Weight(p.z, c0.z, c1.z)))
  }

  /** The trilinear blend of the eight cells spanned by the corners `c0` and `c1`, with weights `w`. */
  function Blend8(job: Job, c0: Int3, c1: Int3, w: Float3): Float3
    requires GridShaped(job) && InBounds(c0, job.grid.VoxelDensity) && InBounds(c1, job.grid.VoxelDensity)
  {
    Trilinear(CornerVelocity(job, c0), CornerVelocity(job, Int3(c1.x, c0.y, c0.z)),
              CornerVelocity(job, Int3(c0.x, c0.y, c1.z)), CornerVelocity(job, Int3(c1.x, c0.y, c1.z)),
              CornerVelocity(job, Int3(c0.x, c1.y, c0.z)), CornerVelocity(job, Int3(c1.x, c1.y, c0.z)),
              CornerVelocity(job, Int3(c0.x, c1.y, c1.z)), CornerVelocity(job, c1),
              w.x, w.y, w.z)
  }

  /** With zero weights the blend is the lower corner's velocity. */
  lemma Blend8AtZero(job: Job, c0: Int3, c1: Int3)
    requires GridShaped(job) && InBounds(c0, job.grid.VoxelDensity) && InBounds(c1, job.grid.VoxelDensity)
    ensures Blend8(job, c0, c1, Zero3) == CornerVelocity(job, c0)
  {
    TrilinearAtZero(CornerVelocity(job, c0), CornerVelocity(job, Int3(c1.x, c0.y, c0.z)),
                    CornerVelocity(job, Int3(c0.x, c0.y, c1.z)), CornerVelocity(job, Int3(c1.x, c0.y, c1.z)),
                    CornerVelocity(job, Int3(c0.x, c1.y, c0.z)), CornerVelocity(job, Int3(c1.x, c1.y, c0.z)),
                    CornerVelocity(job, Int3(c0.x, c1.y, c1.z)), CornerVelocity(job, c1),
                    0.0, 0.0, 0.0);
  }

  /** `GetVoxelVector` at an in-bounds corner. */
  function CornerVelocity(job: Job, c: Int3): Float3
    requires GridShaped(job) && InBounds(c, job.grid.VoxelDensity)
  {
    CornerAddress(job, c);
    GetVoxelVector(job, c.x, c.y, c.z)
  }

  /** The corner velocity is the velocity of the cell `GetIndex` names. */
  lemma CornerVelocityIsCell(job: Job, c: Int3)
    requires GridShaped(job) && InBounds(c, job.grid.VoxelDensity)
    ensures 0 <= GetIndex(c, job.grid.VoxelDensity) < |job.voxels|
    ensures CornerVelocity(job, c) == job.voxels[GetIndex(c, job.grid.VoxelDensity)].Velocity.xyz()
  {
    CornerAddress(job, c);
  }

  /**
   * Trilinear blending of eight corner values: along x first (`c00`, `c01`,
   * `c10`, `c11`), then y, then z.
   */
  function Trilinear(v000: Float3, v100: Float3, v001: Float3, v101: Float3,
                     v010: Float3, v110: Float3, v011: Float3, v111: Float3, xd: real, yd: real, zd: real): Float3
  {
    var c00 := Lerp3(v000, v100, xd);
    var c01 := Lerp3(v001, v101, xd);
    var c10 := Lerp3(v010, v110, xd);
    var c11 := Lerp3(v011, v111, xd);
    Lerp3(Lerp3(c00, c10, yd), Lerp3(c01, c11, yd), zd)
  }

  /**
   * The one cell `InterpolateVelocity` ends up reading: the cell `GetVoxelIndex`
   * names, or, for the one-past-the-end index the clamp admits, the cell one
   * layer below it.
   */
  function SampledIndex(job: Job, sourcePosition: Float3): int
    requires GridShaped(job)
  {
    var d := job.grid.VoxelDensity;
    var i := GetVoxelIndex(job, sourcePosition);
    if i < |job.voxels| then i else i - d.x * d.y
  }

  lemma WeightAtLow(p: int, lo: int, hi: int)
    requires p == lo
    ensures Weight(p, lo, hi) == 0.0
  {
    if hi - lo > 0 {
      assert (p - lo) as real == 0.0;
    }
  }

  /** The one-past-the-end index decodes to `(0, 0, dz)`. */
  lemma DecodeOnePastEnd(d: Int3)
    requires 0 < d.x && 0 < d.y && 0 < d.z
    ensures GetPositionIndex(CellCount(d), d) == Int3(0, 0, d.z)
  {
    OnePastEndX(d);
    OnePastEndY(d);
    OnePastEndZ(d);
  }

  lemma OnePastEndX(d: Int3)
    requires 0 < d.x && 0 < d.y && 0 < d.z
    ensures CsDiv(CellCount(d), d.x) == d.y * d.z && CsRem(CellCount(d), d.x) == 0
  {
    var m := d.y * d.z;
    ProductPositiveInt(d.y, d.z);
    assert CellCount(d) == m * d.x;
    ExactDivision(m, d.x);
    CsDivModNatural(m * d.x, d.x);
  }

  lemma OnePastEndY(d: Int3)
    requires 0 < d.x && 0 < d.y && 0 < d.z
    ensures CsRem(CsDiv(CellCount(d), d.x), d.y) == 0
  {
    OnePastEndX(d);
    var m := d.y * d.z;
    assert m == d.z * d.y;
    ExactDivision(d.z, d.y);
    ProductPositiveInt(d.y, d.z);
    CsDivModNatural(m, d.y);
  }

  lemma OnePastEndZ(d: Int3)
    requires 0 < d.x && 0 < d.y && 0 < d.z
    ensures CsDiv(CellCount(d), d.x * d.y) == d.z
  {
    var k := d.x * d.y;
    ProductPositiveInt(d.x, d.y);
    assert CellCount(d) == d.z * k;
    ExactDivision(d.z, k);
    ProductPositiveInt(d.z, k);
    CsDivModNatural(d.z * k, k);
  }

  /** A multiple of `b` divides by `b` exactly. */
  lemma ExactDivision(m: int, b: int)
    requires 0 <= m && 0 < b
    ensures (m * b) / b == m && (m * b) % b == 0
  {
    DivModUnique(m * b, b, m, 0);
  }

  /** What `GetPositionIndex` can give for an index in `[0, Voxels.Length]`: in the grid, or one layer past it. */
  predicate Decoded(p: Int3, d: Int3) {
    0 <= p.x < d.x && 0 <= p.y < d.y && 0 <= p.z <= d.z
  }

  /** The cell `InterpolateVelocity` decodes is in the grid, or `(0, 0, dz)` for the one-past-the-end index. */
  lemma LookupDecodes(job: Job, sourcePosition: Float3)
    requires GridShaped(job)
    ensures var d := job.grid.VoxelDensity;
      var i := GetVoxelIndex(job, sourcePosition);
      var p := GetPositionIndex(i, d);
      && Decoded(p, d)
      && (i < |job.voxels| ==> InBounds(p, d) && GetIndex(p, d) == i)
      && (i == |job.voxels| ==> p == Int3(0, 0, d.z))
  {
    var d := job.grid.VoxelDensity;
    var i := GetVoxelIndex(job, sourcePosition);
    PositionIndexDecodes(i, d);
    if i < |job.voxels| {
      PositionIndexInBounds(i, d);
    } else {
      DecodeOnePastEnd(d);
    }
  }

  /** Around a decoded cell the clamped lower corner is that cell (pulled back into the grid on z) and every weight is zero. */
  lemma InterpolationWeightsVanish(p: Int3, d: Int3)
    requires 0 < d.x && 0 < d.y && 0 < d.z && Decoded(p, d)
    ensures var c0 := Corner(p, d);
      var c1 := Corner(Int3(p.x + 1, p.y + 1, p.z + 1), d);
      && Weight(p.x, c0.x, c1.x) == 0.0
      && Weight(p.y, c0.y, c1.y) == 0.0
      && Weight(p.z, c0.z, c1.z) == 0.0
      && c0 == (if p.z < d.z then p else Int3(p.x, p.y, d.z - 1))
  {
    var c0 := Corner(p, d);
    var c1 := Corner(Int3(p.x + 1, p.y + 1, p.z + 1), d);
    WeightAtLow(p.x, c0.x, c1.x);
    WeightAtLow(p.y, c0.y, c1.y);
    if p.z < d.z {
      WeightAtLow(p.z, c0.z, c1.z);
    } else {
      assert c1.z - c0.z == 0;
    }
  }

  /** Around a decoded cell the blend collapses onto its clamped lower corner. */
  lemma InterpolateAroundCorner(job: Job, p: Int3)
    requires GridShaped(job) && Decoded(p, job.grid.VoxelDensity)
    ensures InterpolateAround(job, p) == CornerVelocity(job, Corner(p, job.grid.VoxelDensity))
  {
    var d := job.grid.VoxelDensity;
    var c0 := Corner(p, d);
    var c1 := Corner(Int3(p.x + 1, p.y + 1, p.z + 1), d);
    InterpolationWeightsVanish(p, d);
    assert Float3(Weight(p.x, c0.x, c1.x), Weight(p.y, c0.y, c1.y), Weight(p.z, c0.z, c1.z)) == Zero3;
    Blend8AtZero(job, c0, c1);
  }

  /** A trilinear blend with all weights zero is its first corner. */
  lemma TrilinearAtZero(v000: Float3, v100: Float3, v001: Float3, v101: Float3,
                        v010: Float3, v110: Float3, v011: Float3, v111: Float3, xd: real, yd: real, zd: real)
    requires xd == 0.0 && yd == 0.0 && zd == 0.0
    ensures Trilinear(v000, v100, v001, v101, v010, v110, v011, v111, xd, yd, zd) == v000
  {
  }

  /**
   * The interpolation weights always come out zero, so `InterpolateVelocity`
   * returns the velocity of a single cell: the one `GetVoxelIndex` names, or
   * for the one-past-the-end index, the cell `(0, 0, dz - 1)`.
   */
  lemma InterpolationReadsOneCell(job: Job, sourcePosition: Float3)
    requires GridShaped(job)
    ensures 0 <= SampledIndex(job, sourcePosition) < |job.voxels|
    ensures InterpolateVelocity(job, sourcePosition) == job.voxels[SampledIndex(job, sourcePosition)].Velocity.xyz()
  {
    var d := job.grid.VoxelDensity;
    var i := GetVoxelIndex(job, sourcePosition);
    var p := GetPositionIndex(i, d);
    LookupDecodes(job, sourcePosition);
    InterpolateAroundCorner(job, p);
    CornerVelocityIsCell(job, Corner(p, d));
    if i == |job.voxels| {
      assert Corner(p, d) == Int3(0, 0, d.z - 1);
      LastLayerStart(d);
    }
  }

  /** Cell `(0, 0, dz - 1)` starts the last `dx * dy` cells. */
  lemma LastLayerStart(d: Int3)
    ensures GetIndex(Int3(0, 0, d.z - 1), d) == CellCount(d) - d.x * d.y
  {
    var k := d.x * d.y;
    assert GetIndex(Int3(0, 0, d.z - 1), d) == (d.z - 1) * d.x * d.y;
    assert (d.z - 1) * d.x * d.y == (d.z - 1) * k;
    assert CellCount(d) == d.z * k;
    assert (d.z - 1) * k == d.z * k - k;
  }

  /** `GetVoxelIndex` sees the world matrix only through its translation column. */
  lemma GetVoxelIndexUsesTranslationOnly(job: Job, m: Float4x4, position: Float3)
    requires job.grid.VoxelSize != 0.0 && Translation(m) == Translation(job.grid.WorldMatrix)
    ensures GetVoxelIndex(job.(grid := job.grid.(WorldMatrix := m)), position) == GetVoxelIndex(job, position)
  {
  }

  lemma FloorOfCell(c: int, f: real)
    requires 0.0 <= f < 1.0
    ensures (c as real + f).Floor == c
  {
  }

  /** A point whose cell-space position lies in the unit cube of an in-bounds cell maps to that cell. */
  lemma GetVoxelIndexFindsCell(job: Job, position: Float3, c: Int3, f: Float3)
    requires GridShaped(job) && InBounds(c, job.grid.VoxelDensity)
    requires 0.0 <= f.x < 1.0 && 0.0 <= f.y < 1.0 && 0.0 <= f.z < 1.0
    requires GridPosition(job, position) == Add3(ToFloat3(c), f)
    ensures GetVoxelIndex(job, position) == GetIndex(c, job.grid.VoxelDensity)
  {
    var g := GridPosition(job, position);
    FloorOfCell(c.x, f.x);
    FloorOfCell(c.y, f.y);
    FloorOfCell(c.z, f.z);
    assert g.x.Floor == c.x && g.y.Floor == c.y && g.z.Floor == c.z;
    CornerAddress(job, c);
  }

  lemma ScaledQuotient(vs: real, a: real)
    requires vs != 0.0
    ensures (vs * a) / vs == a
  {
  }

  /** On one axis: `(c * vs - (d * vs) / 2) / vs == c - d / 2`. */
  lemma CellSpaceAxis(vs: real, c: int, d: int, offset: real)
    requires vs != 0.0 && offset == 0.0
    ensures (vs * c as real - (d as real * vs) / 2.0 + offset) / vs == c as real - d as real / 2.0
  {
    assert vs * c as real - (d as real * vs) / 2.0 + offset == vs * (c as real - d as real / 2.0);
    ScaledQuotient(vs, c as real - d as real / 2.0);
  }

  /** A matrix with the unit axes as its first three columns moves points by its translation only. */
  predicate TranslationOnly(m: Float4x4) {
    m.c0.xyz() == Float3(1.0, 0.0, 0.0) && m.c1.xyz() == Float3(0.0, 1.0, 0.0) && m.c2.xyz() == Float3(0.0, 0.0, 1.0)
  }

  /** The cell-space position of the corner of built cell `c`, for an unrotated, unscaled, unshifted grid. */
  lemma BuiltCellSpace(job: Job, c: Int3)
    requires job.grid.VoxelSize != 0.0 && TranslationOnly(job.grid.WorldMatrix) && job.grid.Offset == Zero3
    ensures var d := job.grid.VoxelDensity;
      GridPosition(job, Transform(job.grid.WorldMatrix, LocalPosition(job.grid, c)))
        == Float3(c.x as real - d.x as real / 2.0 + CsDiv(d.x, 2) as real,
                  c.y as real - d.y as real / 2.0 + CsDiv(d.y, 2) as real,
                  c.z as real - d.z as real / 2.0 + CsDiv(d.z, 2) as real)
  {
    var g := job.grid;
    var d := g.VoxelDensity;
    var l := LocalPosition(g, c);
    TranslationOnlyMoves(g.WorldMatrix, l);
    var half := Int3(CsDiv(d.x, 2), CsDiv(d.y, 2), CsDiv(d.z, 2));
    assert GridPosition(job, Transform(g.WorldMatrix, l)) == Add3(Div3(l, g.VoxelSize), ToFloat3(half));
    LocalCellSpace(g, c);
  }

  /** A translation-only matrix adds its translation and nothing else. */
  lemma TranslationOnlyMoves(m: Float4x4, p: Float3)
    requires TranslationOnly(m)
    ensures Sub3(Transform(m, p), Translation(m)) == p
  {
  }

  /** The local position of cell `c` with no offset, in voxel units, is `c - density / 2`. */
  lemma LocalCellSpace(g: VoxelGrid, c: Int3)
    requires g.VoxelSize != 0.0 && g.Offset == Zero3
    ensures var d := g.VoxelDensity;
      Div3(LocalPosition(g, c), g.VoxelSize)
        == Float3(c.x as real - d.x as real / 2.0, c.y as real - d.y as real / 2.0, c.z as real - d.z as real / 2.0)
  {
    var d := g.VoxelDensity;
    CellSpaceAxis(g.VoxelSize, c.x, d.x, g.Offset.x);
    CellSpaceAxis(g.VoxelSize, c.y, d.y, g.Offset.y);
    CellSpaceAxis(g.VoxelSize, c.z, d.z, g.Offset.z);
  }

  /**
   * For an unrotated, unscaled grid with no offset and even densities, looking
   * up the corner position `BuildVoxelsJob` gave cell `i` finds cell `i` again.
   */
  lemma LookupFindsBuiltCell(job: Job, i: int, v: Voxel)
    requires GridShaped(job) && TranslationOnly(job.grid.WorldMatrix) && job.grid.Offset == Zero3
    requires var d := job.grid.VoxelDensity; d.x % 2 == 0 && d.y % 2 == 0 && d.z % 2 == 0
    requires 0 <= i < |job.voxels|
    ensures GetVoxelIndex(job, BuiltVoxel(job.grid, i, v).Position.xyz()) == i
  {
    var d := job.grid.VoxelDensity;
    var c := GetPositionIndex(i, d);
    PositionIndexInBounds(i, d);
    IndexRoundTrip(i, d);
    BuiltCellSpace(job, c);
    CsDivModNatural(d.x, 2);
    CsDivModNatural(d.y, 2);
    CsDivModNatural(d.z, 2);
    GetVoxelIndexFindsCell(job, BuiltVoxel(job.grid, i, v).Position.xyz(), c, Zero3);
  }

  /**
   * With an odd density along x the lookup of a built cell's corner lands half
   * a cell short, in the cell before it.
   */
  lemma LookupOddDensityShifts(job: Job, i: int, v: Voxel)
    requires GridShaped(job) && TranslationOnly(job.grid.WorldMatrix) && job.grid.Offset == Zero3
    requires var d := job.grid.VoxelDensity; d.x % 2 == 1 && d.y % 2 == 0 && d.z % 2 == 0
    requires 0 <= i < |job.voxels| && 0 < GetPositionIndex(i, job.grid.VoxelDensity).x
    ensures GetVoxelIndex(job, BuiltVoxel(job.grid, i, v).Position.xyz()) == i - 1
  {
    var d := job.grid.VoxelDensity;
    var c := GetPositionIndex(i, d);
    PositionIndexInBounds(i, d);
    IndexRoundTrip(i, d);
    BuiltCellSpace(job, c);
    CsDivModNatural(d.x, 2);
    CsDivModNatural(d.y, 2);
    CsDivModNatural(d.z, 2);
    var c' := Int3(c.x - 1, c.y, c.z);
    assert d.x as real / 2.0 == (d.x / 2) as real + 0.5;
    GetVoxelIndexFindsCell(job, BuiltVoxel(job.grid, i, v).Position.xyz(), c', Float3(0.5, 0.0, 0.0));
  }
}
