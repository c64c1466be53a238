/**
 * `WindSphereCollider` (Runtime/WindCollider/WindSphereCollider.cs): a sphere
 * that shades and pushes the wind. Every frame it publishes its position, its
 * settings and a velocity measured as the displacement since the previous
 * frame over the frame time.
 */
module SphereColliders {
  import opened UnityMath
  import opened WindData

  class WindSphereCollider {
    // Inspector settings.
    var Radius: real
    var PushStrength: real
    var ShadowStrength: real
    var ShadowDistance: real

    // `_previousPosition` and `_windCollider`.
    var previousPosition: Float3
    var windCollider: WindColliderData

    /** The component as created: inspector defaults, previous position at the origin, an all-zero record. */
    constructor ()
      ensures Radius == 1.0 && PushStrength == 0.05 && ShadowStrength == 1.0 && ShadowDistance == 1.0
      ensures previousPosition == Zero3 && windCollider == DefaultColliderData
    {
      Radius := 1.0;
      PushStrength := 0.05;
      ShadowStrength := 1.0;
      ShadowDistance := 1.0;
      previousPosition := Zero3;
      windCollider := DefaultColliderData;
    }

    /** `Update`: one frame, which is `UpdateWindCollider` with the transform's position and the frame time. */
    method Update(position: Float3, deltaTime: real)
      requires deltaTime != 0.0
      modifies this`previousPosition, this`windCollider
      ensures windCollider == Snapshot(old(windCollider), old(previousPosition), position, deltaTime)
      ensures previousPosition == position
    {
      UpdateWindCollider(position, deltaTime);
    }

    /**
     * The record `UpdateWindCollider` publishes: the current position, the
     * finite-difference velocity from `previous`, and the settings; the `w`
     * components of the previous record are kept.
     */
    function Snapshot(record: WindColliderData, previous: Float3, position: Float3, deltaTime: real): (r: WindColliderData)
      requires deltaTime != 0.0
      reads this
      ensures r.Position.xyz() == position && r.Position.w == record.Position.w
      ensures r.Velocity.w == record.Velocity.w
      ensures Add3(previous, Scale3(deltaTime, r.Velocity.xyz())) == position
      ensures r.Radius == Radius && r.PushStrength == PushStrength
      ensures r.ShadowStrength == ShadowStrength && r.ShadowDistance == ShadowDistance
    {
      var velocity := Div3(Sub3(position, previous), deltaTime);
      FiniteDifference(previous, position, deltaTime);
      record.(Position := record.Position.WithXyz(position), Velocity := record.Velocity.WithXyz(velocity),
        Radius := Radius, PushStrength := PushStrength, ShadowStrength := ShadowStrength, ShadowDistance := ShadowDistance)
    }

    /** `UpdateWindCollider`: publish the snapshot and remember this frame's position for the next one. */
    method UpdateWindCollider(position: Float3, deltaTime: real)
      requires deltaTime != 0.0
      modifies this`previousPosition, this`windCollider
      ensures windCollider == Snapshot(old(windCollider), old(previousPosition), position, deltaTime)
      ensures previousPosition == position
    {
      windCollider := windCollider.(Position := windCollider.Position.WithXyz(position));
      windCollider := windCollider.(Velocity := windCollider.Velocity.WithXyz(Div3(Sub3(position, previousPosition), deltaTime)));
      windCollider := windCollider.(Radius := Radius);
      windCollider := windCollider.(PushStrength := PushStrength);
      windCollider := windCollider.(ShadowStrength := ShadowStrength);
      windCollider := windCollider.(ShadowDistance := ShadowDistance);

      previousPosition := position;
    }
  }

  /** Moving from `previous` at the finite-difference velocity for one frame lands on `position`. */
  lemma FiniteDifference(previous: Float3, position: Float3, deltaTime: real)
    requires deltaTime != 0.0
    ensures Add3(previous, Scale3(deltaTime, Div3(Sub3(position, previous), deltaTime))) == position
  {
    CancelDivision(position.x - previous.x, deltaTime);
    CancelDivision(position.y - previous.y, deltaTime);
    CancelDivision(position.z - previous.z, deltaTime);
  }

  lemma CancelDivision(a: real, k: real)
    requires k != 0.0
    ensures k * (a / k) == a
  {
  }

  /**
   * The records of a list of colliders, in order (`ConvertAll(w => w.WindCollider)`),
   * the same shape as `GlobalWinds.WindDataOf` and `LocalWinds.WindDataOf`.
   */
  function ColliderDataOf(colliders: seq<WindSphereCollider>): (r: seq<WindColliderData>)
    reads colliders
    ensures |r| == |colliders|
    ensures forall i :: 0 <= i < |colliders| ==> r[i] == colliders[i].windCollider
  {
    if colliders == [] then [] else ColliderDataOf(colliders[..|colliders| - 1]) + [colliders[|colliders| - 1].windCollider]
  }
}
