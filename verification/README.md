# VoxelWind in Dafny

A model of the runtime core of VoxelWind, a Unity package that simulates wind on a
voxel grid. The modelled parts are:

- A `VoxelWindZone` component owns a grid of cells (voxels). It lays the grid out
  from its inspector settings and the transform's matrix, and builds every cell with
  `BuildVoxelsJob`.
- Every frame the zone snapshots the registered wind sources and sphere colliders
  into arrays. It then runs `UpdateVoxelsJob` over the cells into a second buffer,
  which is copied back.
- The update of one cell has six steps:
  1. It samples the previous frame's velocity at the backtraced position.
  2. It damps that velocity to 30%.
  3. It adds the global winds; each wind is followed by the colliders' shadow.
  4. It blends in the local wind zones.
  5. It adds the colliders' push.
  6. Unless the last active global wind's collider pass reports the cell fully
     occluded, it relaxes the velocity five times towards the average of the 3x3x3
     neighbourhood.
- Global winds, local winds and sphere colliders are components that publish a
  record each frame. The `VoxelWindManager` is a first-wins singleton that collects
  the records of its constant local winds.

## How the model is built

- Vectors (`float3`, `float4`, `int3`, `int4`, `float4x4`) are datatypes over `real`
  and `int` (module `UnityMath`). `math.sqrt` and the gradient of `noise.snoise` are
  the two fields of a `MathLib` value. `MathLib.Valid()` states the one law the
  proofs need: `sqrt` is the non-negative square root.
- The job kernels are methods. Each is proved equal to a specification function, and
  the properties are proved about those functions:
  - `Execute` of both jobs, and the for-loops of `ApplyGlobalWind`,
    `ApplyLocalWindZone`, `ApplyCollider`, `ApplyColliderPush` and `Diffusion`.
  - Each loop is specified as a fold over the same array (`GlobalWindPass`,
    `LocalWindPass`, `ColliderShadow`, `PushPass`, `SumCells`/`CountCells`).
  - The five-step relaxation is specified by `Relaxed`.
- `GetVoxelIndex`, `GetVoxelVector`, `InterpolateVelocity`, `GetPositionIndex`,
  `GetIndex`, `IsInsideSphere` and `IsInsideCylinder` are expressions in C#, so they
  are functions here. C#'s truncating `/` and `%` are written out as `CsDiv`/`CsRem`.
- The components are classes whose methods update their fields in place:
  `GlobalWind`, `LocalWind`, `WindSphereCollider`, `VoxelWindManager` and
  `VoxelWindZone`.
  - A native array is a Dafny `array?`, with `null` standing for "not created".
  - The zone's voxel storage is the field `voxels`; the grid description is the
    `VoxelGrid` datatype.
  - The job scheduled over every index is a sequential loop calling `Execute(index)`
    (`RunBuildJob`, `RunUpdateJob`).
- Transform data (`localToWorldMatrix`, `position`, `forward`, `hasChanged`),
  `Time.time` and `Time.deltaTime` are parameters. Whether a packing shader is
  assigned is the boolean field `hasPackingShader`. `Destroy(gameObject)` is
  recorded as the flag `destroyRequested`.

### Behaviour worth knowing

- The directional branch of `ApplyGlobalWind` adds `Speed * Direction`; `Strength` is
  not read there (Runtime/VoxelWindJobs.cs:157).
- The diffusion flag is set to the `active` result of the last active global wind's
  collider pass (Runtime/VoxelWindJobs.cs:143, 176, 179). It is not an OR over the
  winds. It is true unless that pass meets a collider containing the cell, and the
  relaxation runs when it is true. With no active global wind it stays true
  (`WindForces.GlobalWindFlag`).
- `Execute` copies `IsActive` through unchanged (Runtime/VoxelWindJobs.cs:80).
- `ApplyCollider` returns at the first collider that matches, shadow or containment
  (Runtime/VoxelWindJobs.cs:243-261). A shadow match ends the pass with the flag set.
- A containing collider returns the constant vector `1 - ShadowStrength` in every
  component, not a scaled velocity (Runtime/VoxelWindJobs.cs:246).
- The push skips a collider whose three velocity components are all non-zero
  (`math.all`, Runtime/VoxelWindJobs.cs:275), as well as one with zero push strength.
- The push factor uses the direction from the collider to the voxel, normalised over
  all four components (Runtime/VoxelWindJobs.cs:284-286).
- `GetVoxelIndex` subtracts only the matrix translation (Runtime/VoxelWindJobs.cs:133).
  The clamp admits the one-past-the-end index. The interpolation weights always come
  out zero, so the backtrace reads exactly one cell
  (`UpdateJob.InterpolationReadsOneCell`).
- For an odd density, the lookup of a built cell's own position lands one cell short
  (`UpdateJob.LookupOddDensityShifts`).

## Model

| member | source | states |
|---|---|---|
| Utilities.PositionIndexDecodes | Runtime/Utilities/Utilities.cs:52-66 | for a non-negative index and positive dx, dy, the decoded coordinates are the Euclidean quotient/remainder digits, with 0 <= x < dx, 0 <= y < dy, 0 <= z, and re-encoding gives the index back |
| Utilities.PositionIndexInBounds | Runtime/Utilities/Utilities.cs:52-61 | every index in [0, dx*dy*dz) decodes to coordinates inside the grid |
| Utilities.IndexRoundTrip | Runtime/Utilities/Utilities.cs:52-66 | `GetIndex(GetPositionIndex(i, d), d) == i` for every non-negative index |
| Utilities.PositionRoundTrip | Runtime/Utilities/Utilities.cs:52-66 | `GetPositionIndex(GetIndex(p, d), d) == p` for every in-bounds cell |
| Utilities.IndexInRange | Runtime/Utilities/Utilities.cs:63-66 | an in-bounds cell encodes to an index in [0, dx*dy*dz) |
| Utilities.IsInsideSphere | Runtime/Utilities/Utilities.cs:38-50 | inside exactly when distance <= radius; outside gives linear01 == 0; inside gives linear01 * radius == distance |
| Utilities.SphereFractionInUnit | Runtime/Utilities/Utilities.cs:48-49 | with a true square root, an accepted point has a positive radius and linear01 in [0, 1] |
| Utilities.SphereCentre | Runtime/Utilities/Utilities.cs:40-49 | the centre of a sphere of positive radius is inside with linear01 == 0 |
| Utilities.SphereBoundary | Runtime/Utilities/Utilities.cs:40-49 | a point at distance == radius is inside with linear01 == 1 |
| Utilities.IsInsideCylinder | Runtime/Utilities/Utilities.cs:9-36 | inside exactly when the axis projection is in [0, height] and the axis distance is in [0, lerp(lower, upper, proj/height)]; outside gives linear01 == 0; inside gives height > 0 and linear01 == proj/height in [0, 1] |
| Utilities.CylinderBase | Runtime/Utilities/Utilities.cs:14-35 | the base point of a cylinder with positive height and non-negative lower radius is inside with linear01 == 0 |
| BuildVoxelsJob.BuiltVoxel | Runtime/VoxelWindJobs.cs:18-33 | the built voxel has Index.w == 0, Size == VoxelSize, IsActive, Position.w == 1, a position that is the transform of its cell's local position, and the previous velocity |
| BuildVoxelsJob.Execute | Runtime/VoxelWindJobs.cs:16-34 | writes `BuiltVoxel(grid, index, old cell)` into slot `index` and changes no other slot |
| BuildVoxelsJob.BuiltVoxelAddressesItsCell | Runtime/VoxelWindJobs.cs:24-33 | the coordinates a built voxel records are inside the grid and `GetIndex` maps them back to its own index |
| BuildVoxelsJob.BuildIdempotent | Runtime/VoxelWindJobs.cs:18-33 | rebuilding a built voxel with the same grid gives the same voxel |
| BuildVoxelsJob.LocalPositionSymmetric | Runtime/VoxelWindJobs.cs:28-29 | cells `c` and `density - c` lie symmetrically about the offset |
| BuildVoxelsJob.LocalPositionSpacing | Runtime/VoxelWindJobs.cs:28-29 | neighbouring cells are exactly one voxel size apart along each axis |
| UpdateJob.GetVoxelIndex | Runtime/VoxelWindJobs.cs:131-139 | the index is clamped to [0, Voxels.Length], upper bound included |
| UpdateJob.GetVoxelIndexUsesTranslationOnly | Runtime/VoxelWindJobs.cs:133 | two matrices with the same translation give the same index |
| UpdateJob.GetVoxelIndexFindsCell | Runtime/VoxelWindJobs.cs:131-139 | a point whose cell-space position lies in the unit cube of an in-bounds cell maps to that cell's index |
| UpdateJob.Corner | Runtime/VoxelWindJobs.cs:97-102 | every clamped corner is inside the grid |
| UpdateJob.CornerVelocityIsCell | Runtime/VoxelWindJobs.cs:125-129 | `GetVoxelVector` at an in-bounds corner reads in range, at the slot `GetIndex` names |
| UpdateJob.LookupDecodes | Runtime/VoxelWindJobs.cs:85-86 | the decoded lookup cell is in the grid for an in-range index, and `(0, 0, dz)` for the one-past-the-end index |
| UpdateJob.InterpolationWeightsVanish | Runtime/VoxelWindJobs.cs:97-107 | all three weights are 0 and the lower corner is the decoded cell (pulled back into the grid on z) |
| UpdateJob.InterpolateAroundCorner | Runtime/VoxelWindJobs.cs:105-122 | the trilinear blend collapses onto the clamped lower corner's velocity |
| UpdateJob.InterpolationReadsOneCell | Runtime/VoxelWindJobs.cs:83-123 | `InterpolateVelocity` returns the velocity of one in-range cell: the looked-up index, or one layer below for the one-past-the-end index |
| UpdateJob.LookupFindsBuiltCell | Runtime/VoxelWindJobs.cs:131-139 | for an unrotated, unscaled, unshifted grid with even densities, the lookup of a built cell's position finds that cell |
| UpdateJob.LookupOddDensityShifts | Runtime/VoxelWindJobs.cs:133 | with an odd x density the same lookup lands on the cell before |
| WindForces.ApplyCollider | Runtime/VoxelWindJobs.cs:235-266 | the loop returns `ColliderShadow`: the first matching collider decides, with no match the velocity passes with the flag set |
| WindForces.ColliderOcclusion | Runtime/VoxelWindJobs.cs:243-247 | a cleared flag means some collider contains the voxel and the velocity is its `1 - ShadowStrength`; with no containing collider the flag is set |
| WindForces.ColliderFlagIgnoresVelocity | Runtime/VoxelWindJobs.cs:241-253 | the flag does not depend on the incoming velocity |
| WindForces.ShadowFactorInUnit | Runtime/VoxelWindJobs.cs:256-257 | the shadow factor `sqrt(saturate(...))` is in [0, 1] |
| WindForces.MatchOnlyAttenuates | Runtime/VoxelWindJobs.cs:253-260 | a shadow match scales the velocity by a factor in [0, 1] |
| WindForces.ShadowOnlyAttenuates | Runtime/VoxelWindJobs.cs:237-265 | with shadow strengths in [0, 1], a result with the flag set is the velocity scaled by a factor in [0, 1] |
| WindForces.ApplyGlobalWind | Runtime/VoxelWindJobs.cs:141-181 | the loop returns `GlobalWindPass`: winds in order, inactive ones skipped, each active one adding its force and then running the collider pass |
| WindForces.InactiveGlobalWindsIgnored | Runtime/VoxelWindJobs.cs:149-152 | dropping the inactive winds changes neither velocity nor flag |
| WindForces.GlobalWindFlag | Runtime/VoxelWindJobs.cs:143-179 | with no active wind the velocity is unchanged and the flag set; with no containing collider the flag is set |
| WindForces.GlobalWindsAddUp | Runtime/VoxelWindJobs.cs:154-174 | without colliders the pass adds the active winds' forces (`Speed * Direction` or the scaled noise gradient) and keeps the flag set |
| WindForces.LocalWindInfluence | Runtime/VoxelWindJobs.cs:197-224 | the influence carries the wind's speed; outside, the falloff is 1; inside a directional wind's cylinder, the falloff is in [0, 1] |
| WindForces.FalloffInUnit | Runtime/VoxelWindJobs.cs:205-221 | with a true square root, every covering wind's falloff is in [0, 1] |
| WindForces.ApplyLocalWindZone | Runtime/VoxelWindJobs.cs:183-233 | the loop returns `LocalWindPass`: winds in array order, inactive or non-covering ones leave the vector alone |
| WindForces.UncoveredUnchanged | Runtime/VoxelWindJobs.cs:190-229 | winds that cover nothing leave the vector unchanged |
| WindForces.OverwriteForgets | Runtime/VoxelWindJobs.cs:228 | once an overwriting wind covers the voxel, the result no longer depends on the incoming vector |
| WindForces.LocalWindsAdd | Runtime/VoxelWindJobs.cs:228 | without overwriting winds, the result is the incoming vector plus what the winds make of a still voxel |
| WindForces.PushFactor | Runtime/VoxelWindJobs.cs:284-288 | for a non-negative push strength the factor is in [0, PushStrength] |
| WindForces.ApplyColliderPush | Runtime/VoxelWindJobs.cs:268-293 | the loop returns `PushPass`: colliders in order, skipped ones (`PushStrength == 0` or `math.all(Velocity)`) ignored, others within `Radius * (1 + VoxelSize)` adding their push |
| WindForces.PushAdds | Runtime/VoxelWindJobs.cs:288 | the push is independent of the incoming velocity: incoming plus the push on a still voxel |
| WindForces.SkippedCollidersDoNotPush | Runtime/VoxelWindJobs.cs:275-278 | skipped colliders leave the velocity unchanged |
| WindForces.PushAlongVelocity | Runtime/VoxelWindJobs.cs:280-289 | one collider adds `k * Velocity.xyz` with k in [0, PushStrength] |
| Diffusion.VisitedCell | Runtime/VoxelWindJobs.cs:303-311 | the visit at offset (dx, dy, dz) reaches cell p + (dx, dy, dz), at its place in the loop order |
| Diffusion.Visit | Runtime/VoxelWindJobs.cs:309-321 | an in-bounds neighbour adds its velocity and one to the count; others add nothing |
| Diffusion.SumNeighbourhood | Runtime/VoxelWindJobs.cs:299-324 | the nested loops compute the in-order sum and the count of the in-bounds cells of the 3x3x3 neighbourhood |
| Diffusion.Diffusion | Runtime/VoxelWindJobs.cs:295-329 | returns `DiffusionAverage`, the neighbourhood sum over the neighbourhood count |
| Diffusion.CellIsItsOwnNeighbour | Runtime/VoxelWindJobs.cs:302-326 | the count is between 1 and 27, so the division is defined |
| Diffusion.InteriorCellHasFullNeighbourhood | Runtime/VoxelWindJobs.cs:313-320 | a cell one cell away from every face counts all 27 neighbours |
| Diffusion.UniformFieldIsFixed | Runtime/VoxelWindJobs.cs:295-329 | diffusing a uniform field returns its velocity |
| Diffusion.RelaxedClosedForm | Runtime/VoxelWindJobs.cs:73-77 | n steps of `v += 0.3 (avg - v)` give `avg + 0.7^n (v0 - avg)` |
| Diffusion.ShrinkFactor | Runtime/VoxelWindJobs.cs:73-77 | the remaining gap factor 0.7^n is in (0, 1], and below 1 after one step |
| UpdateVoxelsJob.UpdatedVoxel | Runtime/VoxelWindJobs.cs:80 | Position, Index, Size and IsActive are copied from the previous voxel; only the velocity is new |
| UpdateVoxelsJob.NewVelocity | Runtime/VoxelWindJobs.cs:59-78 | advection, damping, the three force passes and the relaxation loop compute `UpdatedVelocity` |
| UpdateVoxelsJob.Execute | Runtime/VoxelWindJobs.cs:57-81 | writes `UpdatedVoxel(job, index)` into slot `index` of the output and changes no other slot |
| UpdateVoxelsJob.CalmAdvection | Runtime/VoxelWindJobs.cs:62-65 | over a uniform field the advected, damped velocity is 0.3 times the field velocity |
| UpdateVoxelsJob.CalmForces | Runtime/VoxelWindJobs.cs:62-69 | with no wind acting on the cell, the force passes keep the damped velocity and the cell diffuses |
| UpdateVoxelsJob.CalmUniformFieldDecays | Runtime/VoxelWindJobs.cs:57-80 | with no wind acting on the cell, a uniform field v becomes `(1 - 0.7^6) v` |
| UpdateVoxelsJob.StillAirStaysStill | Runtime/VoxelWindJobs.cs:57-80 | still air with no wind acting on the cell stays still |
| GlobalWinds.GlobalWind.constructor | Runtime/WindMotor/GlobalWind.cs:27-34 | inspector defaults (Directional, 1, 1, 1), `_isActive` true, an all-zero record |
| GlobalWinds.GlobalWind.SettingsRecord | Runtime/WindMotor/GlobalWind.cs:42-60 | the published record carries the forward vector, Type, Strength, Speed and Scale, and is active exactly when Strength != 0 |
| GlobalWinds.GlobalWind.UpdateWind | Runtime/WindMotor/GlobalWind.cs:42-60 | the record becomes `SettingsRecord`, `_isActive == (Strength != 0)`, and the two flags agree |
| GlobalWinds.GlobalWind.Update | Runtime/WindMotor/GlobalWind.cs:37-40 | the same outcome as `UpdateWind` with the current forward vector |
| GlobalWinds.GlobalWind.OnEnable | Runtime/WindMotor/GlobalWind.cs:62-66 | sets both flags true and keeps the rest of the record |
| GlobalWinds.GlobalWind.OnDisable | Runtime/WindMotor/GlobalWind.cs:68-72 | sets both flags false and keeps the rest of the record |
| GlobalWinds.WindDataOf | Runtime/VoxelWindZone.cs:307 | the records of the winds, one per wind, in list order |
| LocalWinds.LocalWind.constructor | Runtime/WindMotor/LocalWind.cs:30-37 | inspector defaults (Directional, no overwrite, speed 1, radius 5), `_isActive` true, an all-zero record |
| LocalWinds.LocalWind.SettingsRecord | Runtime/WindMotor/LocalWind.cs:45-64 | the published record carries position, forward vector, WindType, IsOverWrite, Speed and Radius, and is active exactly when Speed != 0 |
| LocalWinds.LocalWind.UpdateWind | Runtime/WindMotor/LocalWind.cs:45-64 | the record becomes `SettingsRecord`, `_isActive == (Speed != 0)`, and the two flags agree |
| LocalWinds.LocalWind.Update | Runtime/WindMotor/LocalWind.cs:40-43 | the same outcome as `UpdateWind` with the current position and forward vector |
| LocalWinds.LocalWind.OnEnable | Runtime/WindMotor/LocalWind.cs:66-70 | sets both flags true and keeps the rest of the record |
| LocalWinds.LocalWind.OnDisable | Runtime/WindMotor/LocalWind.cs:72-76 | sets both flags false and keeps the rest of the record |
| LocalWinds.WindDataOf | Runtime/VoxelWindZone.cs:308 | the records of the winds, one per wind, in list order |
| SphereColliders.WindSphereCollider.constructor | Runtime/WindCollider/WindSphereCollider.cs:7-14 | inspector defaults (1, 0.05, 1, 1), previous position at the origin, an all-zero record |
| SphereColliders.WindSphereCollider.Snapshot | Runtime/WindCollider/WindSphereCollider.cs:24-29 | the record holds the current position; moving from the previous position at its velocity for deltaTime lands on the current position; the four settings are copied |
| SphereColliders.WindSphereCollider.UpdateWindCollider | Runtime/WindCollider/WindSphereCollider.cs:22-32 | the record becomes `Snapshot` and the previous position becomes the current one |
| SphereColliders.WindSphereCollider.Update | Runtime/WindCollider/WindSphereCollider.cs:17-20 | the same outcome as `UpdateWindCollider` |
| SphereColliders.FiniteDifference | Runtime/WindCollider/WindSphereCollider.cs:25 | `previous + deltaTime * ((position - previous) / deltaTime) == position` |
| SphereColliders.ColliderDataOf | Runtime/VoxelWindZone.cs:309 | the records of the colliders, one per collider, in list order |
| WindManager.ManagerRegistry.constructor | Runtime/VoxelWindManager.cs:9 | no instance is registered at first |
| WindManager.VoxelWindManager.constructor | Runtime/VoxelWindManager.cs:11-14 | empty lists, not destroyed |
| WindManager.VoxelWindManager.Awake | Runtime/VoxelWindManager.cs:16-25 | the first manager becomes `Instance`; a later one leaves `Instance` unchanged and is destroyed |
| WindManager.FirstManagerWins | Runtime/VoxelWindManager.cs:16-25 | of two managers waking in turn, the first stays registered and the second is destroyed |
| WindManager.VoxelWindManager.Update | Runtime/VoxelWindManager.cs:27-34 | `LocalWinds` becomes exactly the constant winds' records, one per wind, in order; earlier contents are gone |
| WindZone.GridData | Runtime/VoxelWindZone.cs:180-191 | density is floor(size / voxelSize) on each axis, count is the product of the three, and matrix, voxel size, size and offset are copied |
| WindZone.BuiltGrid | Runtime/VoxelWindZone.cs:131-137 | the build job over every cell: same length, cell i is `BuiltVoxel(grid, i, previous[i])` |
| WindZone.UpdatedGrid | Runtime/VoxelWindZone.cs:230-249 | the update job over every cell: same length, cell i is `UpdatedVoxel(job, i)` |
| WindZone.VoxelWindZone.constructor | Runtime/VoxelWindZone.cs:27-48 | inspector defaults (CPU, voxel size 1, size 10x10x10, zero offset), an empty grid description, nothing created, not built, the invariant holds |
| WindZone.VoxelWindZone.Records | Runtime/VoxelWindZone.cs:307-309 | one record per registered global wind, local wind and collider |
| WindZone.VoxelWindZone.UpdateVoxelGridData | Runtime/VoxelWindZone.cs:180-196 | the grid description becomes `GridData` of the transform and the settings |
| WindZone.VoxelWindZone.UpdateVoxelBuffer | Runtime/VoxelWindZone.cs:144-153 | afterwards the storage exists with length VoxelCount; it is freshly allocated with all-zero voxels exactly when it was missing or mis-sized, and is the same array otherwise |
| WindZone.VoxelWindZone.BuildVoxelGrid | Runtime/VoxelWindZone.cs:120-142 | without a packing shader nothing changes; otherwise the grid is `GridData`, storage is reallocated only when stale, every cell is `BuiltGrid` of the old or zeroed contents, the grid is marked built, and the invariant holds |
| WindZone.VoxelWindZone.Update | Runtime/VoxelWindZone.cs:198-215 | with no storage: only a build (flag returned as given, built iff a packing shader, fresh storage holding the built zero grid); with storage: the transform flag is cleared, a rebuild happens exactly when the transform changed |
| WindZone.VoxelWindZone.UpdateExistingGrid | Runtime/VoxelWindZone.cs:207-214 | built flag and grid description after the optional rebuild and the wind update; the flag is cleared |
| WindZone.VoxelWindZone.RebuildIfMoved | Runtime/VoxelWindZone.cs:207-212 | rebuilds exactly when the transform changed, clears the flag, keeps the invariant and the records |
| WindZone.VoxelWindZone.UpdateVoxelWindVectors | Runtime/VoxelWindZone.cs:217-260 | a no-op unless built with a packing shader; otherwise the data arrays hold the frame's records and, on the CPU, the voxels become `UpdatedGrid` of the previous contents |
| WindZone.VoxelWindZone.UpdateWindDataArray | Runtime/VoxelWindZone.cs:305-310 | each data array holds the current records; an array of the right length is reused |
| WindZone.BuildBuffer | Runtime/VoxelWindZone.cs:312-327 | the result has length `count` and holds the first `count` source records; the buffer is reused exactly when it exists with that length, otherwise a fresh one is allocated |
| WindZone.RunBuildJob | Runtime/VoxelWindZone.cs:131-137 | the voxels become `BuiltGrid` of their previous contents |
| WindZone.UpdateOnCpu | Runtime/VoxelWindZone.cs:229-250 | the voxels become `UpdatedGrid` of the job that read them, through a separate buffer |
| WindZone.RunUpdateJob | Runtime/VoxelWindZone.cs:230-247 | the separate buffer becomes `UpdatedGrid(job)` |
| WindZone.CopyTo | Runtime/VoxelWindZone.cs:249 | the target takes the source's contents, element by element |
| WindZone.DensityFitsSize | Runtime/VoxelWindZone.cs:187-190 | for a positive voxel size, d cells fit the size on each axis and d + 1 would not |
| WindZone.NonNegativeSizesAreBuildable | Runtime/VoxelWindZone.cs:187-191 | a positive voxel size and a non-negative extent give non-negative densities |
| WindZone.NonEmptyGridHasPositiveDensities | Runtime/VoxelWindZone.cs:187-191 | a grid with non-negative densities and at least one cell has every density positive, so the index decoding can divide |
| WindZone.BuiltGridAddressesCells | Runtime/VoxelWindZone.cs:131-137 | every cell of a built grid records in-grid coordinates that index back to its own slot |
| WindZone.RebuildIsIdempotent | Runtime/VoxelWindZone.cs:120-142 | building a built grid again with the same description changes nothing |
| WindZone.BuildKeepsVelocities | Runtime/VoxelWindZone.cs:131-137 | a build keeps every velocity and marks every cell active |
| WindZone.UpdateKeepsLayout | Runtime/VoxelWindZone.cs:230-249 | a frame of the update moves no cell: positions, coordinates, sizes and flags stay |

## Left out

- The GPU branch of `UpdateVoxelWindVectors` (Runtime/VoxelWindZone.cs:262-301) is
  left out: compute buffers, shader parameters, the dispatch and the asynchronous
  readback into the voxels. The model treats it as leaving the voxels unchanged.
- `_voxelBuffer.SetData`, the packing-shader dispatch after the CPU update, and
  `UpdateVoxelTexture` are left out. They upload to the GPU and are foreign engine calls.
- The `Shader.SetGlobal*` calls, including `math.inverse` of the world matrix, are
  left out. They are engine state the core never reads back.
- `Start` is left out. It creates GPU buffers and the GL material, then calls
  `BuildVoxelGrid`, which is modelled.
- `OnDestroy`, `CreateGLMaterial`, the debug drawing, the gizmos and the editor
  inspector are left out. They are native memory lifetime and UI.
- Job scheduling, batch sizes and `Complete()` are left out. Each job is a sequential
  loop over the indices, and parallel execution is not modelled.
- Floats are exact reals: no rounding, NaN or infinity.
  - `normalize` of the zero vector maps to zero, where Unity gives NaN.
  - Divisions the code can make by zero become preconditions instead:
    - `UpdateJob.Valid`: voxel size, local wind speed or radius, and the shadow divisor.
    - `Utilities.IsInsideSphere`: radius.
    - `Utilities.IsInsideCylinder`: height.
    - `SphereColliders.WindSphereCollider.UpdateWindCollider`: `deltaTime`.
    - `WindZone.VoxelWindZone.UpdateVoxelGridData`: voxel size.
- `int` is unbounded: the 32-bit `VoxelCount` product and the float-to-int casts in
  `GetVoxelIndex` are not wrapped.
- `math.sqrt` and the `noise.snoise` gradient are uninterpreted functions in
  `MathLib`. Only the square-root law is assumed, as a precondition where a lemma
  needs it.
- The zone's wind lists are constant references; the components in them are read, not
  replaced. The manager's `VoxelWindZones` list is never read by the core and is not
  modelled.
- WindZone.VoxelWindZone.Update: when storage already exists, it states the flags, the
  grid description and the invariant but not the new voxel contents. Those are stated
  by `BuildVoxelGrid` and `UpdateVoxelWindVectors`, which it calls in sequence.
- WindZone.VoxelWindZone.UpdateExistingGrid: states the flags and the grid
  description, not the voxel contents, for the same reason.
- WindZone.VoxelWindZone.RebuildIfMoved: states the flags and the grid description,
  not the voxel contents, which `BuildVoxelGrid` states.
- WindZone.VoxelWindZone.BuildVoxelGrid: requires a non-zero voxel size and
  non-negative densities when a packing shader is set. C# would produce NaN, or throw
  on a negative `NativeArray` length. `WindZone.NonNegativeSizesAreBuildable` shows
  that the requirement holds for any non-negative extent.
- WindZone.VoxelWindZone.UpdateVoxelWindVectors: requires the records to satisfy
  `UpdateJob.Valid`'s division conditions. On the GPU it states the voxels unchanged,
  since the readback is left out.
- `Update`, `UpdateExistingGrid` and `RebuildIfMoved` split Runtime/VoxelWindZone.cs:198-215
  into three methods. `UpdateOnCpu`, `RunUpdateJob` and `CopyTo` split the CPU branch.
  `NewVelocity`, `SumNeighbourhood` and `Visit` split `Execute` and `Diffusion`. The
  C# statements are kept in order.
