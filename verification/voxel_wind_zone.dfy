/**
 * `VoxelWindZone` (Runtime/VoxelWindZone.cs): the component that owns one
 * wind grid. It lays the grid out from its inspector settings, allocates the
 * voxel storage, runs the build job over it, and every frame snapshots the
 * registered winds and colliders into arrays and runs the update job over a
 * copy of the voxels, copying the result back.
 *
 * The transform's matrix and `hasChanged` flag, `Time.time` and
 * `Time.deltaTime` are parameters; whether a packing shader is assigned is a
 * field. Native arrays are Dafny arrays, `null` standing for "not created".
 */
module WindZone {
  import opened UnityMath
  import opened Utilities
  import opened WindData
  import opened BuildVoxelsJob
  import opened UpdateJob
  import opened UpdateVoxelsJob
  import GlobalWinds
  import LocalWinds
  import opened SphereColliders

  datatype ComputeDevice = CPU | GPU

  /** `Mathf.FloorToInt(size / voxelSize)` along each axis: how many whole cells fit. */
  function Density(size: Float3, voxelSize: real): Int3
    requires voxelSize != 0.0
  {
    Int3((size.x / voxelSize).Floor, (size.y / voxelSize).Floor, (size.z / voxelSize).Floor)
  }

  predicate NonNegative(d: Int3) {
    0 <= d.x && 0 <= d.y && 0 <= d.z
  }

  /** The grid description `UpdateVoxelGridData` writes. */
  function GridData(worldMatrix: Float4x4, voxelSize: real, size: Float3, offset: Float3): (r: VoxelGrid)
    requires voxelSize != 0.0
    ensures r.VoxelDensity == Density(size, voxelSize)
    ensures r.VoxelCount == CellCount(r.VoxelDensity)
    ensures r.WorldMatrix == worldMatrix && r.VoxelSize == voxelSize && r.Size == size && r.Offset == offset
  {
    var d := Density(size, voxelSize);
    VoxelGrid(worldMatrix, voxelSize, size, offset, d, d.x * d.y * d.z)
  }

  /** Whether native storage for `count` elements must be (re)allocated: it is not created or has another length. */
  predicate Stale<T>(storage: array?<T>, count: int) {
    storage == null || storage.Length != count
  }

  /** The contents of a freshly allocated native array of `n` voxels. */
  function Defaults(n: nat): (r: seq<Voxel>)
    ensures |r| == n && forall i :: 0 <= i < n ==> r[i] == DefaultVoxel
  {
    seq(n, _ => DefaultVoxel)
  }

  /** The voxels after the build job ran over every cell of `previous`. */
  function BuiltGrid(grid: VoxelGrid, previous: seq<Voxel>): (r: seq<Voxel>)
    requires |previous| > 0 ==> grid.VoxelDensity.x != 0 && grid.VoxelDensity.y != 0
    ensures |r| == |previous|
    ensures forall i :: 0 <= i < |r| ==> r[i] == BuiltVoxel(grid, i, previous[i])
  {
    seq(|previous|, i requires 0 <= i < |previous| => BuiltVoxel(grid, i, previous[i]))
  }

  /** A job the update can run over: an empty grid, or a valid one. */
  predicate Runnable(job: Job) {
    |job.voxels| > 0 ==> Valid(job)
  }

  /** The per-frame snapshots of the registered global winds, local winds and colliders. */
  datatype WindRecords = WindRecords(
    globals: seq<GlobalWindData>,
    locals: seq<LocalWindData>,
    colliders: seq<WindColliderData>)

  /** Records the update job's divisions are defined on. */
  predicate RecordsDefined(r: WindRecords) {
    LocalWindsDefined(r.locals) && GlobalWindsDefined(r.colliders, r.globals)
  }

  /** The update job `UpdateVoxelWindVectors` schedules over `contents`. */
  function JobFor(contents: seq<Voxel>, grid: VoxelGrid, records: WindRecords, time: real, deltaTime: real, maths: MathLib): Job {
    Job(contents, grid, time, deltaTime, records.globals, records.locals, records.colliders, maths)
  }

  /** The voxels after the update job ran over every cell of `job.voxels`. */
  function UpdatedGrid(job: Job): (r: seq<Voxel>)
    requires Runnable(job)
    ensures |r| == |job.voxels|
    ensures forall i :: 0 <= i < |r| ==> r[i] == UpdatedVoxel(job, i)
  {
    seq(|job.voxels|, i requires 0 <= i < |job.voxels| => UpdatedVoxel(job, i))
  }

  class VoxelWindZone {
    var voxelGrid: VoxelGrid
    /** `voxelGrid.Voxels`; `null` while the native array is not created. */
    var voxels: array?<Voxel>
    var isVoxelGridBuilt: bool

    var computeDevice: ComputeDevice
    var voxelSize: real
    var voxelGridSize: Float3
    var voxelGridOffset: Float3

    /** The inspector's lists; the zone reads them and never changes them. */
    const globalWinds: seq<GlobalWinds.GlobalWind>
    const localWinds: seq<LocalWinds.LocalWind>
    const windColliders: seq<WindSphereCollider>

    /** `packingShader != null`. */
    var hasPackingShader: bool

    var globalWindDataArray: array?<GlobalWindData>
    var localWindDataArray: array?<LocalWindData>
    var windColliderDataArray: array?<WindColliderData>

    /** The component as the inspector's defaults leave it, before `Start`. */
    constructor (globalWinds: seq<GlobalWinds.GlobalWind>, localWinds: seq<LocalWinds.LocalWind>,
      windColliders: seq<WindSphereCollider>, hasPackingShader: bool)
      ensures Valid() && !isVoxelGridBuilt && voxels == null && voxelGrid == DefaultGrid
      ensures computeDevice == CPU && voxelSize == 1.0
      ensures voxelGridSize == Float3(10.0, 10.0, 10.0) && voxelGridOffset == Zero3
      ensures this.globalWinds == globalWinds && this.localWinds == localWinds && this.windColliders == windColliders
      ensures this.hasPackingShader == hasPackingShader
      ensures globalWindDataArray == null && localWindDataArray == null && windColliderDataArray == null
    {
      voxelGrid := DefaultGrid;
      voxels := null;
      isVoxelGridBuilt := false;
      computeDevice := CPU;
      voxelSize := 1.0;
      voxelGridSize := Float3(10.0, 10.0, 10.0);
      voxelGridOffset := Zero3;
      this.globalWinds := globalWinds;
      this.localWinds := localWinds;
      this.windColliders := windColliders;
      this.hasPackingShader := hasPackingShader;
      globalWindDataArray := null;
      localWindDataArray := null;
      windColliderDataArray := null;
    }

    /**
     * The zone's invariant: the count is the product of non-negative
     * densities, existing storage holds exactly that many voxels, and a built
     * grid has storage and a usable voxel size.
     */
    predicate Valid()
      reads this`voxelGrid, this`voxels, this`isVoxelGridBuilt
    {
      && NonNegative(voxelGrid.VoxelDensity)
      && voxelGrid.VoxelCount == CellCount(voxelGrid.VoxelDensity)
      && (voxels != null ==> voxels.Length == voxelGrid.VoxelCount)
      && (isVoxelGridBuilt ==> voxels != null && voxelGrid.VoxelSize != 0.0)
    }

    /** The settings a build needs: a non-zero voxel size and no negative density. */
    predicate Buildable()
      reads this
    {
      voxelSize != 0.0 && NonNegative(Density(voxelGridSize, voxelSize))
    }

    /** The records the registered winds and colliders hold now (`ConvertAll(w => w.WindData)` and the like). */
    function Records(): (r: WindRecords)
      reads globalWinds, localWinds, windColliders
      ensures |r.globals| == |globalWinds| && |r.locals| == |localWinds| && |r.colliders| == |windColliders|
    {
      WindRecords(GlobalWinds.WindDataOf(globalWinds), LocalWinds.WindDataOf(localWinds), ColliderDataOf(windColliders))
    }

    /** The three data arrays hold `r`. */
    predicate DataArraysHold(r: WindRecords)
      reads this, globalWindDataArray, localWindDataArray, windColliderDataArray
    {
      && globalWindDataArray != null && globalWindDataArray[..] == r.globals
      && localWindDataArray != null && localWindDataArray[..] == r.locals
      && windColliderDataArray != null && windColliderDataArray[..] == r.colliders
    }

    /** `UpdateVoxelGridData`: the grid takes the transform and settings, and its density and count follow. */
    method UpdateVoxelGridData(worldMatrix: Float4x4)
      requires voxelSize != 0.0
      modifies this`voxelGrid
      ensures voxelGrid == GridData(worldMatrix, voxelSize, voxelGridSize, voxelGridOffset)
    {
      voxelGrid := voxelGrid.(WorldMatrix := worldMatrix);
      voxelGrid := voxelGrid.(VoxelSize := voxelSize);
      voxelGrid := voxelGrid.(Size := voxelGridSize);
      voxelGrid := voxelGrid.(Offset := voxelGridOffset);

      var voxelCountX := (voxelGridSize.x / voxelSize).Floor;
      var voxelCountY := (voxelGridSize.y / voxelSize).Floor;
      var voxelCountZ := (voxelGridSize.z / voxelSize).Floor;
      voxelGrid := voxelGrid.(VoxelDensity := Int3(voxelCountX, voxelCountY, voxelCountZ));
      voxelGrid := voxelGrid.(VoxelCount := voxelCountX * voxelCountY * voxelCountZ);
    }

    /** `UpdateVoxelBuffer`: storage of the right length, reallocated (all zero) only when it is missing or mis-sized. */
    method UpdateVoxelBuffer()
      requires 0 <= voxelGrid.VoxelCount
      modifies this`voxels
      ensures voxels != null && voxels.Length == voxelGrid.VoxelCount
      ensures Stale(old(voxels), voxelGrid.VoxelCount) ==> fresh(voxels) && voxels[..] == Defaults(voxelGrid.VoxelCount)
      ensures !Stale(old(voxels), voxelGrid.VoxelCount) ==> voxels == old(voxels)
    {
      if voxels == null || voxels.Length != voxelGrid.VoxelCount {
        voxels := new Voxel[voxelGrid.VoxelCount](_ => DefaultVoxel);
      }
    }

    /**
     * `BuildVoxelGrid`: without a packing shader nothing happens; otherwise
     * the grid description is refreshed, the storage made to fit, every cell
     * rebuilt (keeping the velocity it had, or zero in new storage) and the
     * grid marked built.
     */
    method BuildVoxelGrid(worldMatrix: Float4x4)
      requires Valid()
      requires hasPackingShader ==> Buildable()
      modifies this`voxelGrid, this`voxels, this`isVoxelGridBuilt, voxels
      ensures Valid()
      ensures unchanged(globalWinds, localWinds, windColliders)
      ensures !hasPackingShader ==>
        voxelGrid == old(voxelGrid) && voxels == old(voxels) && isVoxelGridBuilt == old(isVoxelGridBuilt)
        && (voxels != null ==> voxels[..] == old(voxels[..]))
      ensures hasPackingShader ==>
        && isVoxelGridBuilt
        && voxelGrid == GridData(worldMatrix, voxelSize, voxelGridSize, voxelGridOffset)
        && voxels != null
        && (Stale(old(voxels), voxelGrid.VoxelCount) ==> fresh(voxels))
        && (!Stale(old(voxels), voxelGrid.VoxelCount) ==> voxels == old(voxels))
        && voxels[..] == BuiltGrid(voxelGrid,
             if Stale(old(voxels), voxelGrid.VoxelCount) then Defaults(voxelGrid.VoxelCount) else old(voxels[..]))
    {
      if !hasPackingShader {
        return;
      }
      UpdateVoxelGridData(worldMatrix);
      UpdateVoxelBuffer();
      NonEmptyGridHasPositiveDensities(voxelGrid.VoxelDensity);
      RunBuildJob(voxelGrid, voxels);
      isVoxelGridBuilt := true;
    }

    /**
     * `Update`: with no storage yet the grid is built and the frame ends
     * there; otherwise the frame goes on in `UpdateExistingGrid`.
     */
    method Update(worldMatrix: Float4x4, transformHasChanged: bool, time: real, deltaTime: real, maths: MathLib)
      returns (hasChanged: bool)
      requires Valid() && RecordsDefined(Records())
      requires hasPackingShader ==> Buildable()
      modifies this`voxelGrid, this`voxels, this`isVoxelGridBuilt, voxels
      modifies this`globalWindDataArray, this`localWindDataArray, this`windColliderDataArray
      modifies globalWindDataArray, localWindDataArray, windColliderDataArray
      ensures Valid()
      ensures old(voxels) == null ==>
        && hasChanged == transformHasChanged
        && isVoxelGridBuilt == hasPackingShader
        && (!hasPackingShader ==> voxels == null && voxelGrid == old(voxelGrid))
        && (hasPackingShader ==>
              && voxelGrid == GridData(worldMatrix, voxelSize, voxelGridSize, voxelGridOffset)
              && voxels != null && fresh(voxels)
              && voxels[..] == BuiltGrid(voxelGrid, Defaults(voxelGrid.VoxelCount)))
      ensures old(voxels) != null ==>
        && !hasChanged && voxels != null
        && isVoxelGridBuilt == (if transformHasChanged then hasPackingShader else old(isVoxelGridBuilt))
        && voxelGrid == (if transformHasChanged && hasPackingShader
             then GridData(worldMatrix, voxelSize, voxelGridSize, voxelGridOffset) else old(voxelGrid))
    {
      if voxels == null {
        isVoxelGridBuilt := false;
        BuildVoxelGrid(worldMatrix);
        return transformHasChanged;
      }
      hasChanged := UpdateExistingGrid(worldMatrix, transformHasChanged, time, deltaTime, maths);
    }

    /** The rest of `Update` once storage exists: the rebuild on a moved transform, then the wind update. */
    method UpdateExistingGrid(worldMatrix: Float4x4, transformHasChanged: bool, time: real, deltaTime: real, maths: MathLib)
      returns (hasChanged: bool)
      requires Valid() && RecordsDefined(Records()) && voxels != null
      requires hasPackingShader ==> Buildable()
      modifies this`voxelGrid, this`voxels, this`isVoxelGridBuilt, voxels
      modifies this`globalWindDataArray, this`localWindDataArray, this`windColliderDataArray
      modifies globalWindDataArray, localWindDataArray, windColliderDataArray
      ensures Valid() && !hasChanged && voxels != null
      ensures isVoxelGridBuilt == (if transformHasChanged then hasPackingShader else old(isVoxelGridBuilt))
      ensures voxelGrid == (if transformHasChanged && hasPackingShader
        then GridData(worldMatrix, voxelSize, voxelGridSize, voxelGridOffset) else old(voxelGrid))
    {
      hasChanged := RebuildIfMoved(worldMatrix, transformHasChanged);
      UpdateVoxelWindVectors(time, deltaTime, maths);
    }

    /** The moved-transform branch of `Update`: the grid is rebuilt and the transform's flag cleared. */
    method RebuildIfMoved(worldMatrix: Float4x4, transformHasChanged: bool) returns (hasChanged: bool)
      requires Valid() && RecordsDefined(Records()) && voxels != null
      requires hasPackingShader ==> Buildable()
      modifies this`voxelGrid, this`voxels, this`isVoxelGridBuilt, voxels
      ensures Valid() && RecordsDefined(Records()) && !hasChanged && voxels != null
      ensures voxels == old(voxels) || fresh(voxels)
      ensures isVoxelGridBuilt == (if transformHasChanged then hasPackingShader else old(isVoxelGridBuilt))
      ensures voxelGrid == (if transformHasChanged && hasPackingShader
        then GridData(worldMatrix, voxelSize, voxelGridSize, voxelGridOffset) else old(voxelGrid))
    {
      hasChanged := transformHasChanged;
      if transformHasChanged {
        isVoxelGridBuilt := false;
        BuildVoxelGrid(worldMatrix);
        hasChanged := false;
      }
    }

    /**
     * `UpdateVoxelWindVectors`: nothing happens before the grid is built or
     * without a packing shader; otherwise the data arrays are refreshed and,
     * on the CPU, every voxel is replaced by the update job's result over the
     * previous frame.
     */
    method UpdateVoxelWindVectors(time: real, deltaTime: real, maths: MathLib)
      requires Valid() && RecordsDefined(Records())
      modifies voxels
      modifies this`globalWindDataArray, this`localWindDataArray, this`windColliderDataArray
      modifies globalWindDataArray, localWindDataArray, windColliderDataArray
      ensures !(isVoxelGridBuilt && hasPackingShader) ==>
        && (voxels != null ==> voxels[..] == old(voxels[..]))
        && globalWindDataArray == old(globalWindDataArray)
        && localWindDataArray == old(localWindDataArray)
        && windColliderDataArray == old(windColliderDataArray)
        && (globalWindDataArray != null ==> unchanged(globalWindDataArray))
        && (localWindDataArray != null ==> unchanged(localWindDataArray))
        && (windColliderDataArray != null ==> unchanged(windColliderDataArray))
      ensures isVoxelGridBuilt && hasPackingShader ==>
        && DataArraysHold(old(Records()))
        && voxels != null
        && var job := JobFor(old(voxels[..]), voxelGrid, old(Records()), time, deltaTime, maths);
           && Runnable(job)
           && voxels[..] == (if computeDevice == CPU then UpdatedGrid(job) else old(voxels[..]))
    {
      if !isVoxelGridBuilt {
        return;
      }
      if !hasPackingShader {
        return;
      }

      UpdateWindDataArray();

      var job := Job(voxels[..], voxelGrid, time, deltaTime,
        globalWindDataArray[..], localWindDataArray[..], windColliderDataArray[..], maths);
      NonEmptyGridHasPositiveDensities(voxelGrid.VoxelDensity);
      assert job == JobFor(voxels[..], voxelGrid, old(Records()), time, deltaTime, maths);

      match computeDevice
      case CPU =>
        UpdateOnCpu(job, voxels);
      case GPU =>
    }

    /** `UpdateWindDataArray`: each data array is made to hold the current records. */
    method UpdateWindDataArray()
      modifies this`globalWindDataArray, this`localWindDataArray, this`windColliderDataArray
      modifies globalWindDataArray, localWindDataArray, windColliderDataArray
      ensures DataArraysHold(old(Records()))
      ensures !Stale(old(globalWindDataArray), |globalWinds|) ==> globalWindDataArray == old(globalWindDataArray)
      ensures !Stale(old(localWindDataArray), |localWinds|) ==> localWindDataArray == old(localWindDataArray)
      ensures !Stale(old(windColliderDataArray), |windColliders|) ==> windColliderDataArray == old(windColliderDataArray)
    {
      var globalData := GlobalWinds.WindDataOf(globalWinds);
      var localData := LocalWinds.WindDataOf(localWinds);
      var colliderData := ColliderDataOf(windColliders);
      var globals := BuildBuffer(globalWindDataArray, |globalWinds|, globalData);
      var locals := BuildBuffer(localWindDataArray, |localWinds|, localData);
      assert globals[..] == globalData;
      var colliders := BuildBuffer(windColliderDataArray, |windColliders|, colliderData);
      assert globals[..] == globalData && locals[..] == localData;
      globalWindDataArray, localWindDataArray, windColliderDataArray := globals, locals, colliders;
    }
  }

  /**
   * `BuildBuffer`: a buffer of exactly `count` elements holding the first
   * `count` source records, reusing `buffer` when it already has that length.
   */
  method BuildBuffer<T(0)>(buffer: array?<T>, count: int, sourceData: seq<T>) returns (result: array<T>)
    requires 0 <= count <= |sourceData|
    modifies buffer
    ensures result.Length == count && result[..] == sourceData[..count]
    ensures !Stale(buffer, count) ==> result == buffer
    ensures Stale(buffer, count) ==> fresh(result)
  {
    if buffer == null || buffer.Length != count {
      result := new T[count];
    } else {
      result := buffer;
    }

    for i := 0 to count
      invariant result[..i] == sourceData[..i]
    {
      result[i] := sourceData[i];
    }
  }

  /** The build job scheduled over every cell: cell `i` becomes `BuiltVoxel(grid, i, ·)` of its previous contents. */
  method RunBuildJob(grid: VoxelGrid, voxels: array<Voxel>)
    requires voxels.Length > 0 ==> grid.VoxelDensity.x != 0 && grid.VoxelDensity.y != 0
    modifies voxels
    ensures voxels[..] == BuiltGrid(grid, old(voxels[..]))
  {
    for index := 0 to voxels.Length
      invariant forall i :: 0 <= i < index ==> voxels[i] == BuiltVoxel(grid, i, old(voxels[i]))
      invariant forall i :: index <= i < voxels.Length ==> voxels[i] == old(voxels[i])
    {
      BuildVoxelsJob.Execute(grid, voxels, index);
    }
  }

  /**
   * The CPU branch of `UpdateVoxelWindVectors`: the job writes into a
   * temporary array, which is then copied over the voxels.
   */
  method UpdateOnCpu(job: Job, voxels: array<Voxel>)
    requires Runnable(job) && voxels[..] == job.voxels
    modifies voxels
    ensures voxels[..] == UpdatedGrid(job)
  {
    var updatedVoxels := new Voxel[voxels.Length](_ => DefaultVoxel);
    RunUpdateJob(job, updatedVoxels);
    CopyTo(updatedVoxels, voxels);
  }

  /** The update job scheduled over every cell, writing into `updatedVoxels`. */
  method RunUpdateJob(job: Job, updatedVoxels: array<Voxel>)
    requires Runnable(job) && updatedVoxels.Length == |job.voxels|
    modifies updatedVoxels
    ensures updatedVoxels[..] == UpdatedGrid(job)
  {
    for index := 0 to updatedVoxels.Length
      invariant forall i :: 0 <= i < index ==> updatedVoxels[i] == UpdatedVoxel(job, i)
    {
      UpdateVoxelsJob.Execute(job, updatedVoxels, index);
    }
  }

  /** `NativeArray.CopyTo`: the target takes the source's contents element by element. */
  method CopyTo(source: array<Voxel>, target: array<Voxel>)
    requires source.Length == target.Length
    modifies target
    ensures target[..] == old(source[..])
  {
    for i := 0 to target.Length
      invariant target[..i] == old(source[..i])
      invariant source[i..] == old(source[i..])
    {
      target[i] := source[i];
    }
  }

  /** Cells exist only when every density is positive. */
  lemma NonEmptyGridHasPositiveDensities(d: Int3)
    requires NonNegative(d)
    ensures CellCount(d) > 0 ==> 0 < d.x && 0 < d.y && 0 < d.z
  {
    if d.x == 0 || d.y == 0 || d.z == 0 {
      assert CellCount(d) == 0;
    }
  }

  /** `FloorToInt(size / voxelSize)` cells of a positive voxel size fit the size, and one more would not. */
  lemma DensityFitsSize(size: Float3, voxelSize: real)
    requires 0.0 < voxelSize
    ensures var d := Density(size, voxelSize);
      && d.x as real * voxelSize <= size.x < (d.x + 1) as real * voxelSize
      && d.y as real * voxelSize <= size.y < (d.y + 1) as real * voxelSize
      && d.z as real * voxelSize <= size.z < (d.z + 1) as real * voxelSize
  {
    FloorFits(size.x, voxelSize);
    FloorFits(size.y, voxelSize);
    FloorFits(size.z, voxelSize);
  }

  lemma FloorFits(s: real, voxelSize: real)
    requires 0.0 < voxelSize
    ensures (s / voxelSize).Floor as real * voxelSize <= s < ((s / voxelSize).Floor + 1) as real * voxelSize
  {
    var q := s / voxelSize;
    var f := q.Floor;
    var g := (f + 1) as real;
    assert g == f as real + 1.0;
    assert f as real <= q < g;
    assert q * voxelSize == s;
    assert f as real * voxelSize <= q * voxelSize;
    assert q * voxelSize < g * voxelSize;
    assert s < g * voxelSize;
  }

  /** Inspector settings with a positive voxel size and no negative extent can always be built. */
  lemma NonNegativeSizesAreBuildable(size: Float3, voxelSize: real)
    requires 0.0 < voxelSize && 0.0 <= size.x && 0.0 <= size.y && 0.0 <= size.z
    ensures NonNegative(Density(size, voxelSize))
  {
    DensityFitsSize(size, voxelSize);
  }

  /** Every voxel of a built grid records coordinates inside the grid that index back to its own slot. */
  lemma BuiltGridAddressesCells(grid: VoxelGrid, previous: seq<Voxel>)
    requires 0 < grid.VoxelDensity.x && 0 < grid.VoxelDensity.y && 0 < grid.VoxelDensity.z
    requires |previous| == CellCount(grid.VoxelDensity)
    ensures var r := BuiltGrid(grid, previous);
      forall i :: 0 <= i < |r| ==>
        var c := Int3(r[i].Index.x, r[i].Index.y, r[i].Index.z);
        InBounds(c, grid.VoxelDensity) && GetIndex(c, grid.VoxelDensity) == i
  {
    var r := BuiltGrid(grid, previous);
    forall i | 0 <= i < |r|
      ensures var c := Int3(r[i].Index.x, r[i].Index.y, r[i].Index.z);
        InBounds(c, grid.VoxelDensity) && GetIndex(c, grid.VoxelDensity) == i
    {
      BuiltVoxelAddressesItsCell(grid, i, previous[i]);
    }
  }

  /** Building a built grid again with the same description changes nothing. */
  lemma RebuildIsIdempotent(grid: VoxelGrid, previous: seq<Voxel>)
    requires grid.VoxelDensity.x != 0 && grid.VoxelDensity.y != 0
    ensures BuiltGrid(grid, BuiltGrid(grid, previous)) == BuiltGrid(grid, previous)
  {
    var once := BuiltGrid(grid, previous);
    forall i | 0 <= i < |once|
      ensures BuiltGrid(grid, once)[i] == once[i]
    {
      BuildIdempotent(grid, i, previous[i]);
    }
  }

  /** A build keeps every velocity: only the layout of the cells is recomputed. */
  lemma BuildKeepsVelocities(grid: VoxelGrid, previous: seq<Voxel>)
    requires |previous| > 0 ==> grid.VoxelDensity.x != 0 && grid.VoxelDensity.y != 0
    ensures var r := BuiltGrid(grid, previous);
      forall i :: 0 <= i < |r| ==> r[i].Velocity == previous[i].Velocity && r[i].IsActive
  {
  }

  /** A frame of the update job moves no cell: positions, coordinates, sizes and flags stay as they were. */
  lemma UpdateKeepsLayout(job: Job)
    requires Runnable(job)
    ensures var r := UpdatedGrid(job);
      forall i :: 0 <= i < |r| ==>
        && r[i].Position == job.voxels[i].Position && r[i].Index == job.voxels[i].Index
        && r[i].Size == job.voxels[i].Size && r[i].IsActive == job.voxels[i].IsActive
  {
  }
}
