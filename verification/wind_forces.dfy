/**
 * The force loops of `UpdateVoxelsJob` (Runtime/VoxelWindJobs.cs):
 * `ApplyCollider`, `ApplyGlobalWind`, `ApplyLocalWindZone` and
 * `ApplyColliderPush`. Each loop is a method over the job's arrays, proved
 * equal to a fold over the same array written as a function; the lemmas are
 * about those folds.
 */
module WindForces {
  import opened UnityMath
  import opened Utilities
  import opened WindData
  import opened UpdateJob

  /** A velocity with the flag that `ApplyCollider` and `ApplyGlobalWind` report through `out bool active`. */
  datatype Shaded = Shaded(velocity: Float3, active: bool)

  datatype Option<T> = None | Some(value: T)

  // ---------------------------------------------------------------- ApplyCollider

  /** The shadow attenuation `sqrt(saturate((distance - Radius) / (ShadowDistance * Radius * 2 * windSpeed)))`. */
  function ShadowFactor(m: MathLib, distance: real, c: WindColliderData, windSpeed: real): real
    requires ShadowDivisor(c, windSpeed) != 0.0
  {
    m.sqrt(Saturate((distance - c.Radius) / ShadowDivisor(c, windSpeed)))
  }

  lemma ShadowFactorInUnit(m: MathLib, distance: real, c: WindColliderData, windSpeed: real)
    requires m.Valid() && ShadowDivisor(c, windSpeed) != 0.0
    ensures 0.0 <= ShadowFactor(m, distance, c, windSpeed) <= 1.0
  {
    SqrtAtMost(m, Saturate((distance - c.Radius) / ShadowDivisor(c, windSpeed)), 1.0);
  }

  /**
   * What one collider does to `v`: a voxel inside it is occluded and gets the
   * constant `1 - ShadowStrength` with the flag cleared; a voxel upwind of it
   * whose wind ray passes within `Radius` of its centre is in its shadow and
   * keeps the flag; otherwise the collider does not match.
   */
  function ColliderMatch(m: MathLib, c: WindColliderData, position: Float3, v: Float3,
                         windDirection: Float3, windSpeed: real): Option<Shaded>
    requires ShadowDivisor(c, windSpeed) != 0.0
  {
    var distance := m.Distance3(position, c.Position.xyz());
    if distance <= c.Radius then
      Some(Shaded(Splat3(1.0 - c.ShadowStrength), false))
    else
      var projection := Dot3(Sub3(c.Position.xyz(), position), windDirection);
      var shadow := Add3(position, Scale3(projection, windDirection));
      if m.Distance3(shadow, c.Position.xyz()) <= c.Radius && projection < 0.0 then
        var a := ShadowFactor(m, distance, c, windSpeed);
        Some(Shaded(Lerp3(v, Scale3(a, v), c.ShadowStrength), true))
      else
        None
  }

  /** The result of `ApplyCollider`: the first collider that matches decides; with none, `v` passes with the flag set. */
  function ColliderShadow(m: MathLib, colliders: seq<WindColliderData>, position: Float3, v: Float3,
                          windDirection: Float3, windSpeed: real): Shaded
    requires ShadowsDefined(colliders, windSpeed)
    decreases |colliders|
  {
    if colliders == [] then
      Shaded(v, true)
    else
      assert ShadowDivisor(colliders[0], windSpeed) != 0.0;
      match ColliderMatch(m, colliders[0], position, v, windDirection, windSpeed)
      case Some(s) => s
      case None => ColliderShadow(m, colliders[1..], position, v, windDirection, windSpeed)
  }

  /** `ApplyCollider`: scans the colliders in order and returns at the first match. */
  method ApplyCollider(job: Job, voxel: Voxel, vector: Float3, windDirection: Float3, windSpeed: real)
    returns (r: Float3, active: bool)
    requires ShadowsDefined(job.windColliders, windSpeed)
    ensures Shaded(r, active) == ColliderShadow(job.maths, job.windColliders, voxel.Position.xyz(), vector, windDirection, windSpeed)
  {
    var m := job.maths;
    var colliders := job.windColliders;
    var position := voxel.Position.xyz();
    var arrayLength := |colliders|;
    for i := 0 to arrayLength
      invariant ShadowsDefined(colliders[i..], windSpeed)
      invariant ColliderShadow(m, colliders, position, vector, windDirection, windSpeed)
             == ColliderShadow(m, colliders[i..], position, vector, windDirection, windSpeed)
    {
      var collider := colliders[i];
      assert colliders[i..][0] == collider && colliders[i..][1..] == colliders[i + 1..];
      var distance := m.Distance3(position, collider.Position.xyz());

      if distance <= collider.Radius {
        active := false;
        return Splat3(1.0 - collider.ShadowStrength), active;
      }

      var projection := Dot3(Sub3(collider.Position.xyz(), position), windDirection);
      var shadow := Add3(position, Scale3(projection, windDirection));
      var projectionDistance := m.Distance3(shadow, collider.Position.xyz());
      if projectionDistance <= collider.Radius && projection < 0.0 {
        var distanceToColliderSurface := m.Distance3(position, collider.Position.xyz()) - collider.Radius;
        var a := Saturate(distanceToColliderSurface / ShadowDivisor(collider, windSpeed));
        a := m.sqrt(a);

        active := true;
        return Lerp3(vector, Scale3(a, vector), collider.ShadowStrength), active;
      }
    }

    active := true;
    return vector, active;
  }

  /** Whether a voxel is occluded does not depend on the velocity being shadowed. */
  lemma {:induction false} ColliderFlagIgnoresVelocity(m: MathLib, colliders: seq<WindColliderData>, position: Float3,
                                                      v1: Float3, v2: Float3, windDirection: Float3, windSpeed: real)
    requires ShadowsDefined(colliders, windSpeed)
    ensures ColliderShadow(m, colliders, position, v1, windDirection, windSpeed).active
         == ColliderShadow(m, colliders, position, v2, windDirection, windSpeed).active
  {
    if colliders != [] {
      assert ShadowsDefined(colliders[1..], windSpeed);
      ColliderFlagIgnoresVelocity(m, colliders[1..], position, v1, v2, windDirection, windSpeed);
    }
  }

  /**
   * The flag is cleared exactly by occlusion: if it comes back false, some
   * collider contains the voxel and the velocity is that collider's
   * `1 - ShadowStrength`; if no collider contains the voxel it comes back true.
   */
  lemma {:induction false} ColliderOcclusion(m: MathLib, colliders: seq<WindColliderData>, position: Float3, v: Float3,
                                            windDirection: Float3, windSpeed: real)
    requires ShadowsDefined(colliders, windSpeed)
    ensures var r := ColliderShadow(m, colliders, position, v, windDirection, windSpeed);
      !r.active ==> exists i :: 0 <= i < |colliders| && m.Distance3(position, colliders[i].Position.xyz()) <= colliders[i].Radius
                                 && r.velocity == Splat3(1.0 - colliders[i].ShadowStrength)
    ensures (forall i :: 0 <= i < |colliders| ==> m.Distance3(position, colliders[i].Position.xyz()) > colliders[i].Radius)
            ==> ColliderShadow(m, colliders, position, v, windDirection, windSpeed).active
  {
    if colliders != [] {
      var rest := colliders[1..];
      assert ShadowsDefined(rest, windSpeed);
      ColliderOcclusion(m, rest, position, v, windDirection, windSpeed);
      var r := ColliderShadow(m, colliders, position, v, windDirection, windSpeed);
      if ColliderMatch(m, colliders[0], position, v, windDirection, windSpeed).None? {
        if !r.active {
          var i :| 0 <= i < |rest| && m.Distance3(position, rest[i].Position.xyz()) <= rest[i].Radius
                   && r.velocity == Splat3(1.0 - rest[i].ShadowStrength);
          assert colliders[i + 1] == rest[i];
        }
      } else if !r.active {
        assert m.Distance3(position, colliders[0].Position.xyz()) <= colliders[0].Radius;
      }
    }
  }

  /**
   * A voxel that is not occluded keeps the direction of its velocity: with
   * shadow strengths in [0, 1] it comes out as `v` scaled by a factor in [0, 1].
   */
  lemma {:induction false} ShadowOnlyAttenuates(m: MathLib, colliders: seq<WindColliderData>, position: Float3, v: Float3,
                                               windDirection: Float3, windSpeed: real)
    requires m.Valid() && ShadowsDefined(colliders, windSpeed)
    requires forall i :: 0 <= i < |colliders| ==> 0.0 <= colliders[i].ShadowStrength <= 1.0
    ensures var r := ColliderShadow(m, colliders, position, v, windDirection, windSpeed);
      r.active ==> exists k :: 0.0 <= k <= 1.0 && r.velocity == Scale3(k, v)
  {
    if colliders == [] {
      assert Shaded(v, true).velocity == Scale3(1.0, v);
    } else {
      var c := colliders[0];
      var rest := colliders[1..];
      assert ShadowsDefined(rest, windSpeed);
      assert forall i :: 0 <= i < |rest| ==> 0.0 <= rest[i].ShadowStrength <= 1.0 by {
        forall i | 0 <= i < |rest| ensures 0.0 <= rest[i].ShadowStrength <= 1.0 {
          assert rest[i] == colliders[i + 1];
        }
      }
      ShadowOnlyAttenuates(m, rest, position, v, windDirection, windSpeed);
      MatchOnlyAttenuates(m, c, position, v, windDirection, windSpeed);
    }
  }

  /** A single collider's shadow scales `v` by a factor in [0, 1]. */
  lemma MatchOnlyAttenuates(m: MathLib, c: WindColliderData, position: Float3, v: Float3,
                            windDirection: Float3, windSpeed: real)
    requires m.Valid() && ShadowDivisor(c, windSpeed) != 0.0 && 0.0 <= c.ShadowStrength <= 1.0
    ensures var r := ColliderMatch(m, c, position, v, windDirection, windSpeed);
      r.Some? && r.value.active ==> exists k :: 0.0 <= k <= 1.0 && r.value.velocity == Scale3(k, v)
  {
    var r := ColliderMatch(m, c, position, v, windDirection, windSpeed);
    if r.Some? && r.value.active {
      var distance := m.Distance3(position, c.Position.xyz());
      var a := ShadowFactor(m, distance, c, windSpeed);
      assert r.value.velocity == Lerp3(v, Scale3(a, v), c.ShadowStrength);
      ShadowFactorInUnit(m, distance, c, windSpeed);
      LerpTowardIsScaling(v, a, c.ShadowStrength);
    }
  }

  /** Blending `v` toward `a * v` by `s` scales `v` by a factor in [0, 1], for `a` and `s` in [0, 1]. */
  lemma LerpTowardIsScaling(v: Float3, a: real, s: real)
    requires 0.0 <= a <= 1.0 && 0.0 <= s <= 1.0
    ensures exists k :: 0.0 <= k <= 1.0 && Lerp3(v, Scale3(a, v), s) == Scale3(k, v)
  {
    LerpTowardScaled(v, a, s);
    UnitInterpolation(a, s);
  }

  /** `lerp(v, a * v, s) == (1 - s + s * a) * v`. */
  lemma LerpTowardScaled(v: Float3, a: real, s: real)
    ensures Lerp3(v, Scale3(a, v), s) == Scale3(1.0 - s + s * a, v)
  {
    var k := 1.0 - s + s * a;
    var l := Lerp3(v, Scale3(a, v), s);
    var r := Scale3(k, v);
    assert l.x == Lerp(v.x, a * v.x, s);
    assert l.y == Lerp(v.y, a * v.y, s);
    assert l.z == Lerp(v.z, a * v.z, s);
    LerpTowardScaledComponent(v.x, a, s, k);
    LerpTowardScaledComponent(v.y, a, s, k);
    LerpTowardScaledComponent(v.z, a, s, k);
    assert l.x == r.x && l.y == r.y && l.z == r.z;
  }

  lemma LerpTowardScaledComponent(x: real, a: real, s: real, k: real)
    requires k == 1.0 - s + s * a
    ensures Lerp(x, a * x, s) == k * x
  {
    assert s * (a * x - x) == s * (a * x) - s * x;
    assert s * (a * x) == (s * a) * x;
    assert k * x == x - s * x + (s * a) * x;
  }

  /** `1 - s + s * a` stays in [0, 1] for `a` and `s` in [0, 1]. */
  lemma UnitInterpolation(a: real, s: real)
    requires 0.0 <= a <= 1.0 && 0.0 <= s <= 1.0
    ensures 0.0 <= 1.0 - s + s * a <= 1.0
  {
    assert 0.0 <= s * a by { if 0.0 < s && 0.0 < a { ProductPositive(s, a); } }
    assert s * a <= s by { if 0.0 < s && a < 1.0 { ProductPositive(s, 1.0 - a); } }
  }

  // ---------------------------------------------------------------- ApplyGlobalWind

  /** What an active global wind adds before its colliders act: `Speed * Direction`, or the scaled noise gradient. */
  function GlobalWindForce(job: Job, w: GlobalWindData, position: Float3): Float3 {
    match w.WindType
    case Directional => Scale4(w.Speed, w.Direction).xyz()
    case Turbulent =>
      var offset := Scale3(job.time * w.Speed, Neg3(w.Direction.xyz()));
      Scale3(w.Strength, job.maths.NoiseGradient(Add3(Scale3(w.Scale, position), offset)))
  }

  /** One iteration of `ApplyGlobalWind`: an inactive wind is skipped; an active one adds its force, then its colliders act. */
  function GlobalWindStep(job: Job, position: Float3, s: Shaded, w: GlobalWindData): Shaded
    requires w.IsActive ==> ShadowsDefined(job.windColliders, w.Speed)
  {
    if !w.IsActive then s
    else ColliderShadow(job.maths, job.windColliders, position, Add3(s.velocity, GlobalWindForce(job, w, position)),
                        w.Direction.xyz(), w.Speed)
  }

  /** The result of `ApplyGlobalWind` over the winds `ws`, in order, starting from `v` with the flag set. */
  function GlobalWindPass(job: Job, position: Float3, v: Float3, ws: seq<GlobalWindData>): Shaded
    requires GlobalWindsDefined(job.windColliders, ws)
    decreases |ws|
  {
    if ws == [] then
      Shaded(v, true)
    else
      var last := |ws| - 1;
      assert ws[last].IsActive ==> ShadowsDefined(job.windColliders, ws[last].Speed);
      GlobalWindStep(job, position, GlobalWindPass(job, position, v, ws[..last]), ws[last])
  }

  /** `ApplyGlobalWind`: the winds in order, each followed by its colliders; the flag comes from the last active wind. */
  method ApplyGlobalWind(job: Job, voxel: Voxel, velocity: Float3) returns (r: Float3, active: bool)
    requires GlobalWindsDefined(job.windColliders, job.globalWinds)
    ensures Shaded(r, active) == GlobalWindPass(job, voxel.Position.xyz(), velocity, job.globalWinds)
  {
    var globalWinds := job.globalWinds;
    var position := voxel.Position.xyz();
    var isActive := true;
    r := velocity;
    var arrayLength := |globalWinds|;
    for i := 0 to arrayLength
      invariant Shaded(r, isActive) == GlobalWindPass(job, position, velocity, globalWinds[..i])
    {
      var globalWind := globalWinds[i];
      assert globalWinds[..i + 1][..i] == globalWinds[..i] && globalWinds[..i + 1][i] == globalWind;
      if !globalWind.IsActive {
        continue;
      }
      // The `switch` on the wind type.
      r := Add3(r, GlobalWindForce(job, globalWind, position));
      r, isActive := ApplyCollider(job, voxel, r, globalWind.Direction.xyz(), globalWind.Speed);
    }
    assert globalWinds[..arrayLength] == globalWinds;
    active := isActive;
  }

  /** The active winds of `ws`, in order. */
  function ActiveGlobalWinds(ws: seq<GlobalWindData>): (r: seq<GlobalWindData>)
    ensures forall i :: 0 <= i < |r| ==> r[i].IsActive && r[i] in ws
    decreases |ws|
  {
    if ws == [] then []
    else
      var last := |ws| - 1;
      ActiveGlobalWinds(ws[..last]) + (if ws[last].IsActive then [ws[last]] else [])
  }

  /** Dropping the inactive winds changes neither the velocity nor the flag. */
  lemma {:induction false} InactiveGlobalWindsIgnored(job: Job, position: Float3, v: Float3, ws: seq<GlobalWindData>)
    requires GlobalWindsDefined(job.windColliders, ws)
    ensures GlobalWindsDefined(job.windColliders, ActiveGlobalWinds(ws))
    ensures GlobalWindPass(job, position, v, ws) == GlobalWindPass(job, position, v, ActiveGlobalWinds(ws))
  {
    var a := ActiveGlobalWinds(ws);
    forall i | 0 <= i < |a| ensures ShadowsDefined(job.windColliders, a[i].Speed) {
      var j :| 0 <= j < |ws| && ws[j] == a[i];
    }
    if ws != [] {
      var last := |ws| - 1;
      var prefix := ws[..last];
      assert GlobalWindsDefined(job.windColliders, prefix);
      InactiveGlobalWindsIgnored(job, position, v, prefix);
      var ap := ActiveGlobalWinds(prefix);
      if ws[last].IsActive {
        assert a[..|a| - 1] == ap;
      } else {
        assert a == ap;
      }
    }
  }

  /**
   * The flag `ApplyGlobalWind` reports is set when no wind is active, and
   * whenever no collider contains the voxel.
   */
  lemma {:induction false} GlobalWindFlag(job: Job, position: Float3, v: Float3, ws: seq<GlobalWindData>)
    requires GlobalWindsDefined(job.windColliders, ws)
    ensures (forall i :: 0 <= i < |ws| ==> !ws[i].IsActive) ==> GlobalWindPass(job, position, v, ws) == Shaded(v, true)
    ensures (forall i :: 0 <= i < |job.windColliders| ==>
               job.maths.Distance3(position, job.windColliders[i].Position.xyz()) > job.windColliders[i].Radius)
            ==> GlobalWindPass(job, position, v, ws).active
  {
    if ws != [] {
      var last := |ws| - 1;
      var prefix := ws[..last];
      assert GlobalWindsDefined(job.windColliders, prefix);
      GlobalWindFlag(job, position, v, prefix);
      if ws[last].IsActive {
        var s := GlobalWindPass(job, position, v, prefix);
        ColliderOcclusion(job.maths, job.windColliders, position, Add3(s.velocity, GlobalWindForce(job, ws[last], position)),
                          ws[last].Direction.xyz(), ws[last].Speed);
      }
    }
  }

  /** The summed forces of the active winds of `ws`. */
  function GlobalForceSum(job: Job, position: Float3, ws: seq<GlobalWindData>): Float3
    decreases |ws|
  {
    if ws == [] then Zero3
    else
      var last := |ws| - 1;
      Add3(GlobalForceSum(job, position, ws[..last]), if ws[last].IsActive then GlobalWindForce(job, ws[last], position) else Zero3)
  }

  /** Without colliders the global winds just add up, and the flag stays set. */
  lemma {:induction false} GlobalWindsAddUp(job: Job, position: Float3, v: Float3, ws: seq<GlobalWindData>)
    requires job.windColliders == []
    ensures GlobalWindsDefined(job.windColliders, ws)
    ensures GlobalWindPass(job, position, v, ws) == Shaded(Add3(v, GlobalForceSum(job, position, ws)), true)
  {
    if ws != [] {
      var last := |ws| - 1;
      var prefix := ws[..last];
      GlobalWindsAddUp(job, position, v, prefix);
      var s := GlobalWindPass(job, position, v, prefix);
      var w := ws[last];
      var f := if w.IsActive then GlobalWindForce(job, w, position) else Zero3;
      assert GlobalWindStep(job, position, s, w) == Shaded(Add3(s.velocity, f), true);
      assert GlobalWindPass(job, position, v, ws) == GlobalWindStep(job, position, s, w);
      assert GlobalForceSum(job, position, ws) == Add3(GlobalForceSum(job, position, prefix), f);
      AddAssociative(v, GlobalForceSum(job, position, prefix), f);
    }
  }

  lemma AddAssociative(a: Float3, b: Float3, c: Float3)
    ensures Add3(Add3(a, b), c) == Add3(a, Add3(b, c))
  {
  }

  // ---------------------------------------------------------------- ApplyLocalWindZone

  /** What an active local wind makes of a voxel position: whether it covers it, the falloff `1 - linear01`, the direction and the speed. */
  datatype Influence = Influence(inside: bool, a: real, direction: Float3, speed: real)

  /**
   * The `switch` of `ApplyLocalWindZone`: a directional wind is a cylinder of
   * height `Speed` along its direction, an omni wind blows outward inside its
   * sphere, a vortex wind blows around the axis `Direction` inside its sphere.
   */
  function LocalWindInfluence(m: MathLib, w: LocalWindData, position: Float3): (r: Influence)
    requires w.IsActive && LocalWindDefined(w)
    ensures r.speed == w.Speed
    ensures r.inside && w.WindType == LocalWindType.Directional ==> 0.0 <= r.a <= 1.0
    ensures !r.inside ==> r.a == 1.0
  {
    var center := w.Position.xyz();
    match w.WindType
    case Directional =>
      var c := IsInsideCylinder(m, position, center, w.Direction.xyz(), w.Radius, w.Radius, w.Speed);
      Influence(c.inside, 1.0 - c.linear01, w.Direction.xyz(), w.Speed)
    case Omni =>
      var c := IsInsideSphere(m, position, center, w.Radius);
      Influence(c.inside, 1.0 - c.linear01, m.Normalize3(Sub3(position, center)), w.Speed)
    case Vortex =>
      var c := IsInsideSphere(m, position, center, w.Radius);
      Influence(c.inside, 1.0 - c.linear01, Cross(m.Normalize3(Sub3(position, center)), w.Direction.xyz()), w.Speed)
  }

  /** With a true square root, the falloff of a covering wind is in [0, 1]: full at the base or centre, zero at the far end or the surface. */
  lemma FalloffInUnit(m: MathLib, w: LocalWindData, position: Float3)
    requires m.Valid() && w.IsActive && LocalWindDefined(w)
    ensures var r := LocalWindInfluence(m, w, position);
      r.inside ==> 0.0 <= r.a <= 1.0
  {
    if w.WindType != LocalWindType.Directional {
      SphereFractionInUnit(m, position, w.Position.xyz(), w.Radius);
    }
  }

  /** Whether `w` acts on a voxel at `position`. */
  predicate Covers(m: MathLib, w: LocalWindData, position: Float3)
    requires LocalWindDefined(w)
  {
    w.IsActive && LocalWindInfluence(m, w, position).inside
  }

  /** One iteration of `ApplyLocalWindZone`: an inactive wind is skipped, an active one blends in its influence. */
  function LocalWindStep(m: MathLib, w: LocalWindData, position: Float3, v: Float3): Float3
    requires LocalWindDefined(w)
  {
    if !w.IsActive then v else Blend(LocalWindInfluence(m, w, position), w.IsOverWrite, v)
  }

  /** A covering wind adds `a * speed * direction`, after dropping `v` when it overwrites; otherwise `v` is kept. */
  function Blend(inf: Influence, overwrite: bool, v: Float3): Float3 {
    if inf.inside then Add3(Scale3(inf.a * inf.speed, inf.direction), Scale3(if overwrite then 0.0 else 1.0, v))
    else v
  }

  /** The result of `ApplyLocalWindZone` over the winds `ws`, in order, starting from `v`. */
  function LocalWindPass(m: MathLib, ws: seq<LocalWindData>, position: Float3, v: Float3): Float3
    requires LocalWindsDefined(ws)
    decreases |ws|
  {
    if ws == [] then v
    else
      var last := |ws| - 1;
      assert LocalWindDefined(ws[last]);
      LocalWindStep(m, ws[last], position, LocalWindPass(m, ws[..last], position, v))
  }

  /** `ApplyLocalWindZone`. */
  method ApplyLocalWindZone(job: Job, voxel: Voxel, vector: Float3) returns (r: Float3)
    requires LocalWindsDefined(job.localWinds)
    ensures r == LocalWindPass(job.maths, job.localWinds, voxel.Position.xyz(), vector)
  {
    var m := job.maths;
    var localWinds := job.localWinds;
    r := vector;
    var arrayLength := |localWinds|;
    for i := 0 to arrayLength
      invariant r == LocalWindPass(m, localWinds[..i], voxel.Position.xyz(), vector)
    {
      var localWind := localWinds[i];
      LocalWindPassStep(m, localWinds, i, voxel.Position.xyz(), vector);
      if !localWind.IsActive {
        continue;
      }

      var voxelPosition := voxel.Position.xyz();
      // The `switch` on the wind type, then the update `if (isInside)`.
      var influence := LocalWindInfluence(m, localWind, voxelPosition);
      r := Blend(influence, localWind.IsOverWrite, r);
    }
    assert localWinds[..arrayLength] == localWinds;
  }

  lemma LocalWindPassStep(m: MathLib, ws: seq<LocalWindData>, i: int, position: Float3, v: Float3)
    requires LocalWindsDefined(ws) && 0 <= i < |ws|
    ensures LocalWindsDefined(ws[..i]) && LocalWindDefined(ws[i])
    ensures LocalWindPass(m, ws[..i + 1], position, v) == LocalWindStep(m, ws[i], position, LocalWindPass(m, ws[..i], position, v))
  {
    assert ws[..i + 1][..i] == ws[..i];
  }

  /** A wind that covers nothing leaves the velocity alone. */
  lemma {:induction false} UncoveredUnchanged(m: MathLib, ws: seq<LocalWindData>, position: Float3, v: Float3)
    requires LocalWindsDefined(ws)
    requires forall i :: 0 <= i < |ws| ==> !Covers(m, ws[i], position)
    ensures LocalWindPass(m, ws, position, v) == v
  {
    if ws != [] {
      var prefix := ws[..|ws| - 1];
      assert LocalWindsDefined(prefix);
      assert forall i :: 0 <= i < |prefix| ==> !Covers(m, prefix[i], position) by {
        forall i | 0 <= i < |prefix| ensures !Covers(m, prefix[i], position) {
          assert prefix[i] == ws[i];
        }
      }
      UncoveredUnchanged(m, prefix, position, v);
    }
  }

  /** An overwriting wind that covers the voxel erases the velocity it arrived with: the result no longer depends on `v`. */
  lemma {:induction false} OverwriteForgets(m: MathLib, ws: seq<LocalWindData>, position: Float3, v1: Float3, v2: Float3, j: int)
    requires LocalWindsDefined(ws)
    requires 0 <= j < |ws| && ws[j].IsOverWrite && Covers(m, ws[j], position)
    ensures LocalWindPass(m, ws, position, v1) == LocalWindPass(m, ws, position, v2)
  {
    var last := |ws| - 1;
    var prefix := ws[..last];
    assert LocalWindsDefined(prefix);
    if j < last {
      assert prefix[j] == ws[j];
      OverwriteForgets(m, prefix, position, v1, v2, j);
    } else {
      assert Scale3(0.0, LocalWindPass(m, prefix, position, v1)) == Scale3(0.0, LocalWindPass(m, prefix, position, v2));
    }
  }

  /** Without overwriting winds the local winds only add: the result is `v` plus what they make of a still voxel. */
  lemma {:induction false} LocalWindsAdd(m: MathLib, ws: seq<LocalWindData>, position: Float3, v: Float3)
    requires LocalWindsDefined(ws)
    requires forall i :: 0 <= i < |ws| ==> !ws[i].IsOverWrite
    ensures LocalWindPass(m, ws, position, v) == Add3(v, LocalWindPass(m, ws, position, Zero3))
  {
    if ws != [] {
      var last := |ws| - 1;
      var prefix := ws[..last];
      assert LocalWindsDefined(prefix);
      assert forall i :: 0 <= i < |prefix| ==> !prefix[i].IsOverWrite by {
        forall i | 0 <= i < |prefix| ensures !prefix[i].IsOverWrite {
          assert prefix[i] == ws[i];
        }
      }
      LocalWindsAdd(m, prefix, position, v);
    }
  }

  // ---------------------------------------------------------------- ApplyColliderPush

  /** Whether `ApplyColliderPush` skips a collider: no push strength, or a velocity with no zero component (`math.all`). */
  predicate PushSkipped(c: WindColliderData) {
    c.PushStrength == 0.0 || All3(c.Velocity.xyz())
  }

  /**
   * How strongly a collider pushes a voxel it reaches:
   * `PushStrength * saturate(dot(normalize(Velocity), normalize(voxel - Position)))`,
   * the dot product taken over all four components.
   */
  function PushFactor(m: MathLib, c: WindColliderData, voxel: Voxel): (r: real)
    ensures 0.0 <= c.PushStrength ==> 0.0 <= r <= c.PushStrength
  {
    var colliderDirection := m.Normalize4(c.Velocity);
    var colliderToVoxel := Sub4(voxel.Position, c.Position);
    var dot := Saturate(Dot4(colliderDirection, m.Normalize4(colliderToVoxel)));
    assert 0.0 <= c.PushStrength ==> 0.0 <= c.PushStrength * dot <= c.PushStrength by {
      if 0.0 <= c.PushStrength { ScaledUnit(c.PushStrength, dot); }
    }
    c.PushStrength * dot
  }

  /** What a collider adds to a voxel it reaches: its own velocity, scaled by the push factor. */
  function Push(m: MathLib, c: WindColliderData, voxel: Voxel): Float3 {
    Scale3(PushFactor(m, c, voxel), c.Velocity.xyz())
  }

  /** One iteration of `ApplyColliderPush`: a collider that is not skipped pushes voxels within `Radius * (1 + VoxelSize)`. */
  function PushStep(m: MathLib, voxelSize: real, c: WindColliderData, voxel: Voxel, v: Float3): Float3 {
    if PushSkipped(c) then v
    else if m.Distance3(voxel.Position.xyz(), c.Position.xyz()) <= c.Radius * (1.0 + voxelSize) then Add3(v, Push(m, c, voxel))
    else v
  }

  /** The result of `ApplyColliderPush` over the colliders `cs`, in order, starting from `v`. */
  function PushPass(m: MathLib, voxelSize: real, cs: seq<WindColliderData>, voxel: Voxel, v: Float3): Float3
    decreases |cs|
  {
    if cs == [] then v
    else
      var last := |cs| - 1;
      PushStep(m, voxelSize, cs[last], voxel, PushPass(m, voxelSize, cs[..last], voxel, v))
  }

  /** `ApplyColliderPush`. */
  method ApplyColliderPush(job: Job, voxel: Voxel, velocity: Float3) returns (r: Float3)
    ensures r == PushPass(job.maths, job.grid.VoxelSize, job.windColliders, voxel, velocity)
  {
    var m := job.maths;
    var windColliders := job.windColliders;
    r := velocity;
    var arrayLength := |windColliders|;
    for i := 0 to arrayLength
      invariant r == PushPass(m, job.grid.VoxelSize, windColliders[..i], voxel, velocity)
    {
      var collider := windColliders[i];
      assert windColliders[..i + 1][..i] == windColliders[..i] && windColliders[..i + 1][i] == collider;

      if collider.PushStrength == 0.0 || All3(collider.Velocity.xyz()) {
        continue;
      }
      var distance := m.Distance3(voxel.Position.xyz(), collider.Position.xyz());

      if distance <= collider.Radius * (1.0 + job.grid.VoxelSize) {
        r := Add3(r, Push(m, collider, voxel));
      }
    }
    assert windColliders[..arrayLength] == windColliders;
  }

  /** The push does not depend on the incoming velocity: it is `v` plus what the colliders add to a still voxel. */
  lemma {:induction false} PushAdds(m: MathLib, voxelSize: real, cs: seq<WindColliderData>, voxel: Voxel, v: Float3)
    ensures PushPass(m, voxelSize, cs, voxel, v) == Add3(v, PushPass(m, voxelSize, cs, voxel, Zero3))
  {
    if cs != [] {
      PushAdds(m, voxelSize, cs[..|cs| - 1], voxel, v);
    }
  }

  /** Skipped colliders never push. */
  lemma {:induction false} SkippedCollidersDoNotPush(m: MathLib, voxelSize: real, cs: seq<WindColliderData>, voxel: Voxel, v: Float3)
    requires forall i :: 0 <= i < |cs| ==> PushSkipped(cs[i])
    ensures PushPass(m, voxelSize, cs, voxel, v) == v
  {
    if cs != [] {
      var prefix := cs[..|cs| - 1];
      assert forall i :: 0 <= i < |prefix| ==> PushSkipped(prefix[i]) by {
        forall i | 0 <= i < |prefix| ensures PushSkipped(prefix[i]) {
          assert prefix[i] == cs[i];
        }
      }
      SkippedCollidersDoNotPush(m, voxelSize, prefix, voxel, v);
    }
  }

  /** A single push is along the collider's velocity, by a factor between 0 and `PushStrength`. */
  lemma PushAlongVelocity(m: MathLib, voxelSize: real, c: WindColliderData, voxel: Voxel, v: Float3)
    requires 0.0 <= c.PushStrength
    ensures exists k :: 0.0 <= k <= c.PushStrength && PushStep(m, voxelSize, c, voxel, v) == Add3(v, Scale3(k, c.Velocity.xyz()))
  {
    if PushSkipped(c) || m.Distance3(voxel.Position.xyz(), c.Position.xyz()) > c.Radius * (1.0 + voxelSize) {
      assert PushStep(m, voxelSize, c, voxel, v) == Add3(v, Scale3(0.0, c.Velocity.xyz()));
    } else {
      var k := PushFactor(m, c, voxel);
      assert PushStep(m, voxelSize, c, voxel, v) == Add3(v, Scale3(k, c.Velocity.xyz()));
    }
  }

  /** `0 <= p * s <= p` for `s` in [0, 1] and `p >= 0`. */
  lemma ScaledUnit(p: real, s: real)
    requires 0.0 <= p && 0.0 <= s <= 1.0
    ensures 0.0 <= p * s <= p
  {
    if 0.0 < p && 0.0 < s { ProductPositive(p, s); }
    if 0.0 < p && s < 1.0 { ProductPositive(p, 1.0 - s); }
  }
}
