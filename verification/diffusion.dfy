/**
 * `UpdateVoxelsJob.Diffusion` (Runtime/VoxelWindJobs.cs): the average of the
 * previous-frame velocities over a cell's 3x3x3 neighbourhood, cells outside
 * the grid left out, and the relaxation loop of `Execute` that pulls a
 * velocity towards that average.
 *
 * The loops visit the offsets `(dx, dy, dz)` with `dx` outermost and `dz`
 * innermost; `NeighbourCells(p)` lists the 27 cells in that order, and the
 * specification folds over that list.
 */
module Diffusion {
  import opened UnityMath
  import opened Utilities
  import opened WindData
  import opened UpdateJob

  /** The k-th offset the loops visit: `k = 9 (dx + 1) + 3 (dy + 1) + (dz + 1)`. */
  function NeighbourOffset(k: int): (r: Int3)
    requires 0 <= k < 27
    ensures -1 <= r.x <= 1 && -1 <= r.y <= 1 && -1 <= r.z <= 1
    ensures k == 9 * (r.x + 1) + 3 * (r.y + 1) + (r.z + 1)
  {
    var dx := if k < 9 then -1 else if k < 18 then 0 else 1;
    var rest := k - 9 * (dx + 1);
    var dy := if rest < 3 then -1 else if rest < 6 then 0 else 1;
    Int3(dx, dy, rest - 3 * (dy + 1) - 1)
  }

  /** The 27 cells around `p` (itself included), in the order the loops visit them. */
  function NeighbourCells(p: Int3): (r: seq<Int3>)
    ensures |r| == 27
  {
    seq(27, k requires 0 <= k < 27 =>
      var o := NeighbourOffset(k);
      Int3(p.x + o.x, p.y + o.y, p.z + o.z))
  }

  /** The visit at offset `(dx, dy, dz)` reaches the cell `p + (dx, dy, dz)`. */
  lemma VisitedCell(p: Int3, dx: int, dy: int, dz: int)
    requires -1 <= dx <= 1 && -1 <= dy <= 1 && -1 <= dz <= 1
    ensures NeighbourCells(p)[9 * (dx + 1) + 3 * (dy + 1) + (dz + 1)] == Int3(p.x + dx, p.y + dy, p.z + dz)
  {
  }

  /** The previous-frame velocity of an in-bounds cell, read at the address the loop computes. */
  function CellVelocity(job: Job, n: Int3): Float4
    requires GridShaped(job) && InBounds(n, job.grid.VoxelDensity)
  {
    var d := job.grid.VoxelDensity;
    CornerAddress(job, n);
    job.voxels[n.x + n.y * d.x + n.z * (d.x * d.y)].Velocity
  }

  /** The sum of the velocities of the in-bounds cells of `cells`, added in order. */
  function SumCells(job: Job, cells: seq<Int3>): Float4
    requires GridShaped(job)
  {
    if cells == [] then Zero4
    else
      var n := cells[|cells| - 1];
      var s := SumCells(job, cells[..|cells| - 1]);
      if InBounds(n, job.grid.VoxelDensity) then Add4(s, CellVelocity(job, n)) else s
  }

  /** How many cells of `cells` lie in the grid. */
  function CountCells(d: Int3, cells: seq<Int3>): (r: int)
    ensures 0 <= r <= |cells|
  {
    if cells == [] then 0
    else CountCells(d, cells[..|cells| - 1]) + (if InBounds(cells[|cells| - 1], d) then 1 else 0)
  }

  /** Extending the visited prefix by one cell adds that cell's velocity and count if it is in the grid. */
  lemma FoldStep(job: Job, cells: seq<Int3>, k: int)
    requires GridShaped(job) && 0 <= k < |cells|
    ensures var n := cells[k];
      var d := job.grid.VoxelDensity;
      && SumCells(job, cells[..k + 1]) == (if InBounds(n, d) then Add4(SumCells(job, cells[..k]), CellVelocity(job, n)) else SumCells(job, cells[..k]))
      && CountCells(d, cells[..k + 1]) == CountCells(d, cells[..k]) + (if InBounds(n, d) then 1 else 0)
  {
    assert cells[..k + 1][..k] == cells[..k];
  }

  /** The value `Diffusion(index)` returns: the neighbourhood sum over the neighbourhood count. */
  function DiffusionAverage(job: Job, index: int): Float4
    requires GridShaped(job) && 0 <= index < |job.voxels|
  {
    var d := job.grid.VoxelDensity;
    var cells := NeighbourCells(GetPositionIndex(index, d));
    CellIsItsOwnNeighbour(job, index);
    Div4(SumCells(job, cells), CountCells(d, cells) as real)
  }

  /** `Diffusion(index)`: the neighbourhood sum and count, then the division by the count. */
  method Diffusion(job: Job, index: int) returns (r: Float4)
    requires GridShaped(job) && 0 <= index < |job.voxels|
    ensures r == DiffusionAverage(job, index)
  {
    var positionIndex := GetPositionIndex(index, job.grid.VoxelDensity);
    var averageVector, count := SumNeighbourhood(job, positionIndex);
    CellIsItsOwnNeighbour(job, index);
    r := Div4(averageVector, count as real);
  }

  /** The three nested loops of `Diffusion`: they add up the velocities of the in-bounds neighbours of `p` and count them. */
  method SumNeighbourhood(job: Job, p: Int3) returns (averageVector: Float4, count: int)
    requires GridShaped(job)
    ensures averageVector == SumCells(job, NeighbourCells(p))
    ensures count == CountCells(job.grid.VoxelDensity, NeighbourCells(p))
  {
    var d := job.grid.VoxelDensity;
    ghost var cells := NeighbourCells(p);
    averageVector := Zero4;
    count := 0;
    // How many offsets the loops have visited.
    ghost var k := 0;
    for dx := -1 to 2
      invariant k == 9 * (dx + 1)
      invariant averageVector == SumCells(job, cells[..k]) && count == CountCells(d, cells[..k])
    {
      for dy := -1 to 2
        invariant k == 9 * (dx + 1) + 3 * (dy + 1)
        invariant averageVector == SumCells(job, cells[..k]) && count == CountCells(d, cells[..k])
      {
        for dz := -1 to 2
          invariant k == 9 * (dx + 1) + 3 * (dy + 1) + (dz + 1)
          invariant averageVector == SumCells(job, cells[..k]) && count == CountCells(d, cells[..k])
        {
          VisitedCell(p, dx, dy, dz);
          averageVector, count := Visit(job, Int3(p.x + dx, p.y + dy, p.z + dz), averageVector, count);
          FoldStep(job, cells, k);
          k := k + 1;
        }
      }
    }
    assert cells[..k] == cells;
  }

  /** The body of the innermost loop: a neighbour inside the grid adds its velocity to the sum and one to the count. */
  method Visit(job: Job, n: Int3, sum0: Float4, count0: int) returns (averageVector: Float4, count: int)
    requires GridShaped(job)
    ensures var d := job.grid.VoxelDensity;
      && averageVector == (if InBounds(n, d) then Add4(sum0, CellVelocity(job, n)) else sum0)
      && count == count0 + (if InBounds(n, d) then 1 else 0)
  {
    var d := job.grid.VoxelDensity;
    averageVector, count := sum0, count0;
    var nx, ny, nz := n.x, n.y, n.z;
    if nx >= 0 && nx < d.x && ny >= 0 && ny < d.y && nz >= 0 && nz < d.z {
      var neighborIndex := nx + ny * d.x + nz * (d.x * d.y);
      CornerAddress(job, n);
      averageVector := Add4(averageVector, job.voxels[neighborIndex].Velocity);
      count := count + 1;
    }
  }

  /** The cell itself is among its neighbours and is counted, so the division in `Diffusion` is by 1 to 27. */
  lemma CellIsItsOwnNeighbour(job: Job, index: int)
    requires GridShaped(job) && 0 <= index < |job.voxels|
    ensures var d := job.grid.VoxelDensity;
      1 <= CountCells(d, NeighbourCells(GetPositionIndex(index, d))) <= 27
  {
    var d := job.grid.VoxelDensity;
    var p := GetPositionIndex(index, d);
    PositionIndexInBounds(index, d);
    VisitedCell(p, 0, 0, 0);
    CountedCell(d, NeighbourCells(p), 13);
  }

  /** A list holding an in-bounds cell counts at least one. */
  lemma {:induction false} CountedCell(d: Int3, cells: seq<Int3>, i: int)
    requires 0 <= i < |cells| && InBounds(cells[i], d)
    ensures 1 <= CountCells(d, cells)
  {
    if i < |cells| - 1 {
      CountedCell(d, cells[..|cells| - 1], i);
    }
  }

  /** A cell at least one cell away from every face of the grid has all 27 neighbours. */
  lemma InteriorCellHasFullNeighbourhood(d: Int3, p: Int3)
    requires 1 <= p.x < d.x - 1 && 1 <= p.y < d.y - 1 && 1 <= p.z < d.z - 1
    ensures CountCells(d, NeighbourCells(p)) == 27
  {
    AllCounted(d, NeighbourCells(p));
  }

  lemma {:induction false} AllCounted(d: Int3, cells: seq<Int3>)
    requires forall i :: 0 <= i < |cells| ==> InBounds(cells[i], d)
    ensures CountCells(d, cells) == |cells|
  {
    if cells != [] {
      AllCounted(d, cells[..|cells| - 1]);
    }
  }

  /** Whether every cell of the previous frame has velocity `v`. */
  predicate Uniform(job: Job, v: Float4) {
    forall i :: 0 <= i < |job.voxels| ==> job.voxels[i].Velocity == v
  }

  /** Over a uniform field the sum is `v` times the count. */
  lemma {:induction false} UniformSum(job: Job, cells: seq<Int3>, v: Float4)
    requires GridShaped(job) && Uniform(job, v)
    ensures SumCells(job, cells) == Scale4(CountCells(job.grid.VoxelDensity, cells) as real, v)
  {
    var d := job.grid.VoxelDensity;
    if cells != [] {
      var rest := cells[..|cells| - 1];
      var n := cells[|cells| - 1];
      UniformSum(job, rest, v);
      if InBounds(n, d) {
        CornerAddress(job, n);
        assert CellVelocity(job, n) == v;
        AddOneMore(CountCells(d, rest) as real, v);
      }
    }
  }

  lemma AddOneMore(c: real, v: Float4)
    ensures Add4(Scale4(c, v), v) == Scale4(c + 1.0, v)
  {
    assert (c + 1.0) * v.x == c * v.x + v.x;
    assert (c + 1.0) * v.y == c * v.y + v.y;
    assert (c + 1.0) * v.z == c * v.z + v.z;
    assert (c + 1.0) * v.w == c * v.w + v.w;
  }

  /** Diffusing a uniform field gives back its velocity. */
  lemma UniformFieldIsFixed(job: Job, index: int, v: Float4)
    requires GridShaped(job) && 0 <= index < |job.voxels| && Uniform(job, v)
    ensures DiffusionAverage(job, index) == v
  {
    var d := job.grid.VoxelDensity;
    var cells := NeighbourCells(GetPositionIndex(index, d));
    CellIsItsOwnNeighbour(job, index);
    UniformSum(job, cells, v);
    ScaleThenDivide(CountCells(d, cells) as real, v);
  }

  lemma ScaleThenDivide(c: real, v: Float4)
    requires c != 0.0
    ensures Div4(Scale4(c, v), c) == v
  {
    assert (c * v.x) / c == v.x;
    assert (c * v.y) / c == v.y;
    assert (c * v.z) / c == v.z;
    assert (c * v.w) / c == v.w;
  }

  // ---------------------------------------------------------------- relaxation

  /** One step of the relaxation loop in `Execute`: move 30% of the way towards the diffused vector. */
  function RelaxStep(v: Float4, average: Float4): Float4 {
    Add4(v, Scale4(0.3, Sub4(average, v)))
  }

  /** `n` relaxation steps towards the same diffused vector. */
  function Relaxed(v: Float4, average: Float4, n: nat): Float4 {
    if n == 0 then v else RelaxStep(Relaxed(v, average, n - 1), average)
  }

  function Pow(b: real, n: nat): real {
    if n == 0 then 1.0 else b * Pow(b, n - 1)
  }

  /** After `n` steps the distance to the diffused vector has shrunk by the factor `0.7^n`. */
  lemma {:induction false} RelaxedClosedForm(v: Float4, average: Float4, n: nat)
    ensures Relaxed(v, average, n) == Add4(average, Scale4(Pow(0.7, n), Sub4(v, average)))
  {
    if n > 0 {
      RelaxedClosedForm(v, average, n - 1);
      RelaxStepShrinks(Relaxed(v, average, n - 1), average, v, Pow(0.7, n - 1));
    }
  }

  /** A step from `a + q (v - a)` lands on `a + 0.7 q (v - a)`. */
  lemma RelaxStepShrinks(u: Float4, a: Float4, v: Float4, q: real)
    requires u == Add4(a, Scale4(q, Sub4(v, a)))
    ensures RelaxStep(u, a) == Add4(a, Scale4(0.7 * q, Sub4(v, a)))
  {
    RelaxComponent(u.x, a.x, q, v.x);
    RelaxComponent(u.y, a.y, q, v.y);
    RelaxComponent(u.z, a.z, q, v.z);
    RelaxComponent(u.w, a.w, q, v.w);
  }

  lemma RelaxComponent(u: real, a: real, q: real, x: real)
    requires u == a + q * (x - a)
    ensures u + 0.3 * (a - u) == a + (0.7 * q) * (x - a)
  {
    assert u + 0.3 * (a - u) == a + 0.7 * (u - a);
    assert 0.7 * (u - a) == 0.7 * (q * (x - a));
  }

  /** The shrink factor stays in (0, 1], and below 1 once a step has been taken. */
  lemma {:induction false} ShrinkFactor(n: nat)
    ensures 0.0 < Pow(0.7, n) <= 1.0
    ensures 0 < n ==> Pow(0.7, n) < 1.0
  {
    if n > 0 {
      ShrinkFactor(n - 1);
    }
  }
}
