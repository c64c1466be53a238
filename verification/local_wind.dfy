/**
 * `LocalWind` (Runtime/WindMotor/LocalWind.cs): a wind zone around a point.
 * Every frame it copies its settings, its transform's position and forward
 * vector into the `LocalWindData` record the zone and the manager read, and
 * switches itself off while its speed is zero.
 */
module LocalWinds {
  import opened UnityMath
  import opened WindData

  class LocalWind {
    // Inspector settings.
    var WindType: LocalWindType
    var IsOverWrite: bool
    var Speed: real
    var Radius: real

    // `_isActive` and `_windData`.
    var isActive: bool
    var windData: LocalWindData

    /** The component as created: inspector defaults, active, and an all-zero (inactive) record. */
    constructor ()
      ensures WindType == LocalWindType.Directional && !IsOverWrite && Speed == 1.0 && Radius == 5.0
      ensures isActive && windData == DefaultLocalWindData
    {
      WindType := LocalWindType.Directional;
      IsOverWrite := false;
      Speed := 1.0;
      Radius := 5.0;
      isActive := true;
      windData := DefaultLocalWindData;
    }

    /** The published record's flag agrees with `_isActive`. */
    predicate Consistent()
      reads this
    {
      windData.IsActive == isActive
    }

    /** `Update`: one frame, which is `UpdateWind` with the transform's current position and forward vector. */
    method Update(position: Float3, forward: Float3)
      modifies this`isActive, this`windData
      ensures windData == SettingsRecord(old(windData), position, forward) && isActive == (Speed != 0.0)
      ensures Consistent()
    {
      UpdateWind(position, forward);
    }

    /** The record `UpdateWind` publishes: settings and transform copied in, active exactly when the speed is non-zero. */
    function SettingsRecord(previous: LocalWindData, position: Float3, forward: Float3): (r: LocalWindData)
      reads this
      ensures r.Position.xyz() == position && r.Position.w == previous.Position.w
      ensures r.Direction.xyz() == forward && r.Direction.w == previous.Direction.w
      ensures r.WindType == WindType && r.IsOverWrite == IsOverWrite && r.Speed == Speed && r.Radius == Radius
      ensures r.IsActive <==> Speed != 0.0
    {
      previous.(WindType := WindType, IsOverWrite := IsOverWrite,
        Position := previous.Position.WithXyz(position), Direction := previous.Direction.WithXyz(forward),
        Speed := Speed, Radius := Radius, IsActive := Speed != 0.0)
    }

    /** `UpdateWind`: publish the settings and transform, and re-derive the active flag from the speed. */
    method UpdateWind(position: Float3, forward: Float3)
      modifies this`isActive, this`windData
      ensures windData == SettingsRecord(old(windData), position, forward) && isActive == (Speed != 0.0)
      ensures Consistent()
    {
      windData := windData.(WindType := WindType);
      windData := windData.(IsOverWrite := IsOverWrite);
      windData := windData.(Position := windData.Position.WithXyz(position));
      windData := windData.(Direction := windData.Direction.WithXyz(forward));
      windData := windData.(Speed := Speed);
      windData := windData.(Radius := Radius);

      if Speed == 0.0 {
        isActive := false;
      } else {
        isActive := true;
      }

      windData := windData.(IsActive := isActive);
    }

    /** `OnEnable`: switch on; the rest of the record is kept. */
    method OnEnable()
      modifies this`isActive, this`windData
      ensures isActive && windData == old(windData).(IsActive := true)
      ensures Consistent()
    {
      isActive := true;
      windData := windData.(IsActive := isActive);
    }

    /** `OnDisable`: switch off; the rest of the record is kept. */
    method OnDisable()
      modifies this`isActive, this`windData
      ensures !isActive && windData == old(windData).(IsActive := false)
      ensures Consistent()
    {
      isActive := false;
      windData := windData.(IsActive := isActive);
    }
  }

  /**
   * The records of a list of local winds, in order (`ConvertAll(w => w.WindData)`).
   * `GlobalWinds.WindDataOf` and `SphereColliders.ColliderDataOf` have the same
   * shape over their own component classes.
   */
  function WindDataOf(winds: seq<LocalWind>): (r: seq<LocalWindData>)
    reads winds
    ensures |r| == |winds|
    ensures forall i :: 0 <= i < |winds| ==> r[i] == winds[i].windData
  {
    if winds == [] then [] else WindDataOf(winds[..|winds| - 1]) + [winds[|winds| - 1].windData]
  }
}
