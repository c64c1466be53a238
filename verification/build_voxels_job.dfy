/**
 * `BuildVoxelsJob` (Runtime/VoxelWindJobs.cs): the per-cell initialiser that
 * lays the grid out. Cell `index` gets the coordinates its linear index
 * decodes to, the world position of its corner and the grid's voxel size; its
 * velocity survives a rebuild.
 */
module BuildVoxelsJob {
  import opened UnityMath
  import opened Utilities
  import opened WindData

  /**
   * The local (pre-transform) position of the cell at `coord`:
   * `coord * voxelSize - gridSize / 2 + offset`, with `gridSize` the density
   * scaled by the voxel size.
   */
  function LocalPosition(grid: VoxelGrid, coord: Int3): Float3 {
    var vs := grid.VoxelSize;
    var d := grid.VoxelDensity;
    var gridSize := Float3(d.x as real * vs, d.y as real * vs, d.z as real * vs);
    Add3(Sub3(Scale3(vs, ToFloat3(coord)), Div3(gridSize, 2.0)), grid.Offset)
  }

  /** The voxel that `Execute(index)` stores, given the voxel that was there before. */
  function BuiltVoxel(grid: VoxelGrid, index: int, previous: Voxel): (r: Voxel)
    requires grid.VoxelDensity.x != 0 && grid.VoxelDensity.y != 0
    ensures r.Index.w == 0 && r.Size == grid.VoxelSize && r.IsActive
    ensures r.Position.w == 1.0
    ensures r.Position.xyz() == Transform(grid.WorldMatrix, LocalPosition(grid, Int3(r.Index.x, r.Index.y, r.Index.z)))
    ensures r.Velocity == previous.Velocity
  {
    var p := GetPositionIndex(index, grid.VoxelDensity);
    var worldPosition := Transform(grid.WorldMatrix, LocalPosition(grid, p));
    Voxel(Float4(worldPosition.x, worldPosition.y, worldPosition.z, 1.0), Int4(p.x, p.y, p.z, 0), grid.VoxelSize, previous.Velocity)
  }

  /** `Execute(index)`: rewrites cell `index` and no other. */
  method Execute(grid: VoxelGrid, voxels: array<Voxel>, index: int)
    requires 0 <= index < voxels.Length
    requires grid.VoxelDensity.x != 0 && grid.VoxelDensity.y != 0
    modifies voxels
    ensures voxels[..] == old(voxels[..])[index := BuiltVoxel(grid, index, old(voxels[index]))]
  {
    var voxel := voxels[index];
    var voxelDensity := grid.VoxelDensity;
    var voxelSize := grid.VoxelSize;

    // `index % dx`, `(index / dx) % dy` and `index / (dx * dy)` with C#'s truncating operators.
    var p := GetPositionIndex(index, voxelDensity);
    var x, y, z := p.x, p.y, p.z;

    var localPosition := LocalPosition(grid, Int3(x, y, z));
    var worldPosition := Transform(grid.WorldMatrix, localPosition);

    voxels[index] := Voxel(Float4(worldPosition.x, worldPosition.y, worldPosition.z, 1.0), Int4(x, y, z, 0), voxelSize, voxel.Velocity);
  }

  /**
   * The coordinates a built voxel records address it: they lie inside the grid
   * and `GetIndex` maps them back to the cell's own index.
   */
  lemma BuiltVoxelAddressesItsCell(grid: VoxelGrid, index: int, previous: Voxel)
    requires 0 < grid.VoxelDensity.x && 0 < grid.VoxelDensity.y && 0 < grid.VoxelDensity.z
    requires 0 <= index < CellCount(grid.VoxelDensity)
    ensures var r := BuiltVoxel(grid, index, previous);
      var c := Int3(r.Index.x, r.Index.y, r.Index.z);
      InBounds(c, grid.VoxelDensity) && GetIndex(c, grid.VoxelDensity) == index
  {
    var c := GetPositionIndex(index, grid.VoxelDensity);
    assert Int3(BuiltVoxel(grid, index, previous).Index.x, BuiltVoxel(grid, index, previous).Index.y, BuiltVoxel(grid, index, previous).Index.z) == c;
    PositionIndexInBounds(index, grid.VoxelDensity);
    IndexRoundTrip(index, grid.VoxelDensity);
  }

  /** Rebuilding a built voxel changes nothing: the build keeps the velocity and recomputes the rest. */
  lemma BuildIdempotent(grid: VoxelGrid, index: int, previous: Voxel)
    requires grid.VoxelDensity.x != 0 && grid.VoxelDensity.y != 0
    ensures BuiltVoxel(grid, index, BuiltVoxel(grid, index, previous)) == BuiltVoxel(grid, index, previous)
  {
  }

  /**
   * The local layout is centred on the offset: the cells at `c` and at
   * `density - c` lie symmetrically about it.
   */
  lemma LocalPositionSymmetric(grid: VoxelGrid, c: Int3)
    ensures var d := grid.VoxelDensity;
      Add3(LocalPosition(grid, c), LocalPosition(grid, Int3(d.x - c.x, d.y - c.y, d.z - c.z))) == Scale3(2.0, grid.Offset)
  {
  }

  /** Neighbouring cells are one voxel size apart along each axis. */
  lemma LocalPositionSpacing(grid: VoxelGrid, c: Int3)
    ensures LocalPosition(grid, Int3(c.x + 1, c.y, c.z)) == Add3(LocalPosition(grid, c), Float3(grid.VoxelSize, 0.0, 0.0))
    ensures LocalPosition(grid, Int3(c.x, c.y + 1, c.z)) == Add3(LocalPosition(grid, c), Float3(0.0, grid.VoxelSize, 0.0))
    ensures LocalPosition(grid, Int3(c.x, c.y, c.z + 1)) == Add3(LocalPosition(grid, c), Float3(0.0, 0.0, grid.VoxelSize))
  {
    var vs := grid.VoxelSize;
    var d := grid.VoxelDensity;
    AxisStep(vs, c.x, (d.x as real * vs) / 2.0, grid.Offset.x);
    AxisStep(vs, c.y, (d.y as real * vs) / 2.0, grid.Offset.y);
    AxisStep(vs, c.z, (d.z as real * vs) / 2.0, grid.Offset.z);
  }

  /** One axis of `LocalPosition`: a step of one cell moves by one voxel size. */
  lemma AxisStep(vs: real, c: int, half: real, offset: real)
    ensures vs * (c + 1) as real - half + offset == (vs * c as real - half + offset) + vs
  {
    assert (c + 1) as real == c as real + 1.0;
    assert vs * (c as real + 1.0) == vs * c as real + vs;
  }
}
