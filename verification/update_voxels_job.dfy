/**
 * `UpdateVoxelsJob.Execute` (Runtime/VoxelWindJobs.cs): one frame of the wind
 * field for one cell. The cell's velocity is advected (sampled back along
 * itself), damped to 30%, pushed by the global winds, the local wind zones
 * and the colliders, and, unless the last active global wind's collider
 * pass reports it fully occluded, relaxed five times towards the average of
 * its neighbourhood. Position, coordinates, size
 * and the active flag are copied unchanged.
 */
module UpdateVoxelsJob {
  import opened UnityMath
  import opened Utilities
  import opened WindData
  import opened UpdateJob
  import opened WindForces
  import opened Diffusion

  /** The damping applied to the advected velocity. */
  const Damping := 0.3

  /** How many relaxation steps `Execute` takes towards the diffused vector. */
  const RelaxSteps := 5

  /**
   * The velocity after advection and damping: the previous-frame velocity is
   * sampled at `Position - Velocity * deltaTime`, written into `.xyz`, and
   * all four components are scaled by 0.3.
   */
  function Advected(job: Job, voxel: Voxel): Float4
    requires GridShaped(job)
  {
    var sourcePosition := Sub4(voxel.Position, Scale4(job.deltaTime, voxel.Velocity));
    Scale4(Damping, voxel.Velocity.WithXyz(InterpolateVelocity(job, sourcePosition.xyz())))
  }

  /** The velocity after the three force passes, and whether the cell goes on to diffuse. */
  function Forced(job: Job, voxel: Voxel): Shaded
    requires Valid(job)
  {
    var v := Advected(job, voxel);
    var position := voxel.Position.xyz();
    var global := GlobalWindPass(job, position, v.xyz(), job.globalWinds);
    var local := LocalWindPass(job.maths, job.localWinds, position, global.velocity);
    Shaded(PushPass(job.maths, job.grid.VoxelSize, job.windColliders, voxel, local), global.active)
  }

  /**
   * The velocity `Execute(index)` writes, `w` component included: a cell that
   * diffuses ends `0.7^5` of the way from the diffused vector back to its
   * forced velocity (`RelaxedClosedForm`), a fully shaded one keeps its
   * forced velocity.
   */
  function UpdatedVelocity(job: Job, index: int): Float4
    requires Valid(job) && 0 <= index < |job.voxels|
  {
    var voxel := job.voxels[index];
    var forced := Forced(job, voxel);
    var v := Advected(job, voxel).WithXyz(forced.velocity);
    var average := DiffusionAverage(job, index);
    if forced.active then Add4(average, Scale4(Pow(0.7, RelaxSteps), Sub4(v, average))) else v
  }

  /** The voxel `Execute(index)` writes: only the velocity differs from the previous frame's voxel. */
  function UpdatedVoxel(job: Job, index: int): (r: Voxel)
    requires Valid(job) && 0 <= index < |job.voxels|
    ensures var old_ := job.voxels[index];
      && r.Position == old_.Position && r.Index == old_.Index
      && r.Size == old_.Size && r.IsActive == old_.IsActive
    ensures r.Velocity == UpdatedVelocity(job, index)
  {
    var voxel := job.voxels[index];
    Voxel(voxel.Position, voxel.Index, voxel.Size, UpdatedVelocity(job, index), voxel.IsActive)
  }

  /** `Execute(index)`: writes the updated voxel to slot `index` of the output array and nothing else. */
  method Execute(job: Job, updatedVoxels: array<Voxel>, index: int)
    requires Valid(job) && 0 <= index < |job.voxels| && index < updatedVoxels.Length
    modifies updatedVoxels
    ensures updatedVoxels[..] == old(updatedVoxels[..])[index := UpdatedVoxel(job, index)]
  {
    var voxel := job.voxels[index];
    var velocity := NewVelocity(job, index);
    updatedVoxels[index] := Voxel(voxel.Position, voxel.Index, voxel.Size, velocity, voxel.IsActive);
  }

  /** The velocity computation of `Execute(index)`: advection, the three force passes and the relaxation loop. */
  method NewVelocity(job: Job, index: int) returns (velocity: Float4)
    requires Valid(job) && 0 <= index < |job.voxels|
    ensures velocity == UpdatedVelocity(job, index)
  {
    var voxel := job.voxels[index];
    velocity := voxel.Velocity;

    var sourcePosition := Sub4(voxel.Position, Scale4(job.deltaTime, velocity));
    var interpolatedVelocity := InterpolateVelocity(job, sourcePosition.xyz());
    velocity := velocity.WithXyz(interpolatedVelocity);
    velocity := Scale4(Damping, velocity);

    var xyz, needDiffusion := ApplyGlobalWind(job, voxel, velocity.xyz());
    velocity := velocity.WithXyz(xyz);
    xyz := ApplyLocalWindZone(job, voxel, velocity.xyz());
    velocity := velocity.WithXyz(xyz);
    xyz := ApplyColliderPush(job, voxel, velocity.xyz());
    velocity := velocity.WithXyz(xyz);

    if needDiffusion {
      ghost var forced := velocity;
      for i := 0 to RelaxSteps
        invariant velocity == Relaxed(forced, DiffusionAverage(job, index), i)
      {
        var diffusedVector := Diffusion.Diffusion(job, index);
        velocity := Add4(velocity, Scale4(0.3, Sub4(diffusedVector, velocity)));
      }
      RelaxedClosedForm(forced, DiffusionAverage(job, index), RelaxSteps);
    }
  }

  /**
   * With no wind acting on the cell (every global wind inactive, no local
   * wind zone covering it, every collider skipped by the push pass), a
   * uniform field `v` decays to `(1 - 0.7^6) v`: damping keeps 30% of it and
   * five relaxation steps towards `v` close all but `0.7^5` of the gap.
   */
  lemma CalmUniformFieldDecays(job: Job, index: int, v: Float4)
    requires Valid(job) && 0 <= index < |job.voxels| && Uniform(job, v)
    requires forall i :: 0 <= i < |job.globalWinds| ==> !job.globalWinds[i].IsActive
    requires forall i :: 0 <= i < |job.localWinds| ==> !Covers(job.maths, job.localWinds[i], job.voxels[index].Position.xyz())
    requires forall i :: 0 <= i < |job.windColliders| ==> PushSkipped(job.windColliders[i])
    ensures UpdatedVelocity(job, index) == Scale4(1.0 - Pow(0.7, RelaxSteps + 1), v)
  {
    var damped := Scale4(Damping, v);
    CalmForces(job, index, v);
    assert damped.WithXyz(damped.xyz()) == damped;
    UniformFieldIsFixed(job, index, v);
    var q := Pow(0.7, RelaxSteps);
    assert Pow(0.7, RelaxSteps + 1) == 0.7 * q;
    DampedGap(v, q);
  }

  /** Over a uniform field the advected velocity is the damped field velocity. */
  lemma CalmAdvection(job: Job, index: int, v: Float4)
    requires GridShaped(job) && 0 <= index < |job.voxels| && Uniform(job, v)
    ensures Advected(job, job.voxels[index]) == Scale4(Damping, v)
  {
    var voxel := job.voxels[index];
    var sourcePosition := Sub4(voxel.Position, Scale4(job.deltaTime, voxel.Velocity)).xyz();
    InterpolationReadsOneCell(job, sourcePosition);
  }

  /** With no wind acting on the cell, the force passes leave the damped velocity alone and the cell diffuses. */
  lemma CalmForces(job: Job, index: int, v: Float4)
    requires Valid(job) && 0 <= index < |job.voxels| && Uniform(job, v)
    requires forall i :: 0 <= i < |job.globalWinds| ==> !job.globalWinds[i].IsActive
    requires forall i :: 0 <= i < |job.localWinds| ==> !Covers(job.maths, job.localWinds[i], job.voxels[index].Position.xyz())
    requires forall i :: 0 <= i < |job.windColliders| ==> PushSkipped(job.windColliders[i])
    ensures Advected(job, job.voxels[index]) == Scale4(Damping, v)
    ensures Forced(job, job.voxels[index]) == Shaded(Scale4(Damping, v).xyz(), true)
  {
    var voxel := job.voxels[index];
    var position := voxel.Position.xyz();
    var damped := Scale4(Damping, v).xyz();
    CalmAdvection(job, index, v);
    GlobalWindFlag(job, position, damped, job.globalWinds);
    UncoveredUnchanged(job.maths, job.localWinds, position, damped);
    SkippedCollidersDoNotPush(job.maths, job.grid.VoxelSize, job.windColliders, voxel, damped);
  }

  /** Relaxing `0.3 v` towards `v` with remaining gap factor `q` lands on `(1 - 0.7 q) v`. */
  lemma DampedGap(v: Float4, q: real)
    ensures Add4(v, Scale4(q, Sub4(Scale4(Damping, v), v))) == Scale4(1.0 - 0.7 * q, v)
  {
    DecayComponent(v.x, q);
    DecayComponent(v.y, q);
    DecayComponent(v.z, q);
    DecayComponent(v.w, q);
    var lhs := Add4(v, Scale4(q, Sub4(Scale4(Damping, v), v)));
    assert lhs.x == Scale4(1.0 - 0.7 * q, v).x;
    assert lhs.y == Scale4(1.0 - 0.7 * q, v).y;
    assert lhs.z == Scale4(1.0 - 0.7 * q, v).z;
    assert lhs.w == Scale4(1.0 - 0.7 * q, v).w;
  }

  lemma DecayComponent(x: real, q: real)
    ensures x + q * (0.3 * x - x) == (1.0 - 0.7 * q) * x
  {
  }

  /** Still air with no wind acting on it stays still. */
  lemma StillAirStaysStill(job: Job, index: int)
    requires Valid(job) && 0 <= index < |job.voxels| && Uniform(job, Zero4)
    requires forall i :: 0 <= i < |job.globalWinds| ==> !job.globalWinds[i].IsActive
    requires forall i :: 0 <= i < |job.localWinds| ==> !Covers(job.maths, job.localWinds[i], job.voxels[index].Position.xyz())
    requires forall i :: 0 <= i < |job.windColliders| ==> PushSkipped(job.windColliders[i])
    ensures UpdatedVoxel(job, index).Velocity == Zero4
  {
    CalmUniformFieldDecays(job, index, Zero4);
  }
}
