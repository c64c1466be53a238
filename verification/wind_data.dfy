/**
 * The plain records the wind field passes between its parts: a voxel, the
 * grid description, and the per-frame snapshots of global winds, local winds
 * and sphere colliders (Runtime/Voxel, Runtime/WindCollider and the data
 * structs of Runtime/WindMotor).
 */
module WindData {
  import opened UnityMath

  /** One cell of the grid. `IsActive` defaults to true in the C# constructor. */
  datatype Voxel = Voxel(Position: Float4, Index: Int4, Size: real, Velocity: Float4, IsActive: bool := true)

  /** A freshly allocated native array holds all-zero voxels (and so `IsActive == false`). */
  const DefaultVoxel: Voxel := Voxel(Zero4, Int4(0, 0, 0, 0), 0.0, Zero4, false)

  /**
   * The grid description. The voxel storage itself (`VoxelGrid.Voxels`) is
   * kept apart: the zone owns it as an array and the jobs see it as a sequence.
   */
  datatype VoxelGrid = VoxelGrid(
    WorldMatrix: Float4x4,
    VoxelSize: real,
    Size: Float3,
    Offset: Float3,
    VoxelDensity: Int3,
    VoxelCount: int)

  /** `new VoxelGrid()`: every field zero. */
  const DefaultGrid: VoxelGrid :=
    VoxelGrid(Float4x4(Zero4, Zero4, Zero4, Zero4), 0.0, Zero3, Zero3, Int3(0, 0, 0), 0)

  datatype WindColliderData = WindColliderData(
    Position: Float4,
    Velocity: Float4,
    Radius: real,
    PushStrength: real,
    ShadowStrength: real,
    ShadowDistance: real)

  const DefaultColliderData: WindColliderData := WindColliderData(Zero4, Zero4, 0.0, 0.0, 0.0, 0.0)

  datatype GlobalWindType = Directional | Turbulent

  datatype GlobalWindData = GlobalWindData(
    IsActive: bool,
    WindType: GlobalWindType,
    Direction: Float4,
    Strength: real,
    Speed: real,
    Scale: real)

  const DefaultGlobalWindData: GlobalWindData := GlobalWindData(false, GlobalWindType.Directional, Zero4, 0.0, 0.0, 0.0)

  datatype LocalWindType = Directional | Omni | Vortex

  datatype LocalWindData = LocalWindData(
    IsActive: bool,
    WindType: LocalWindType,
    IsOverWrite: bool,
    Position: Float4,
    Direction: Float4,
    Speed: real,
    Radius: real)

  const DefaultLocalWindData: LocalWindData :=
    LocalWindData(false, LocalWindType.Directional, false, Zero4, Zero4, 0.0, 0.0)
}
