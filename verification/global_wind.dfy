/**
 * `GlobalWind` (Runtime/WindMotor/GlobalWind.cs): a scene-wide wind source.
 * Every frame it copies its inspector settings and its transform's forward
 * vector into the `GlobalWindData` record the zone reads, and switches itself
 * off while its strength is zero.
 */
module GlobalWinds {
  import opened UnityMath
  import opened WindData

  class GlobalWind {
    // Inspector settings.
    var Type: GlobalWindType
    var Strength: real
    var Speed: real
    var Scale: real

    // `_isActive` and `_windData`.
    var isActive: bool
    var windData: GlobalWindData

    /** The component as created: inspector defaults, active, and an all-zero (inactive) record. */
    constructor ()
      ensures Type == GlobalWindType.Directional && Strength == 1.0 && Speed == 1.0 && Scale == 1.0
      ensures isActive && windData == DefaultGlobalWindData
    {
      Type := GlobalWindType.Directional;
      Strength := 1.0;
      Speed := 1.0;
      Scale := 1.0;
      isActive := true;
      windData := DefaultGlobalWindData;
    }

    /** The published record's flag agrees with `_isActive`. */
    predicate Consistent()
      reads this
    {
      windData.IsActive == isActive
    }

    /** `Update`: one frame, which is `UpdateWind` with the transform's current forward vector. */
    method Update(forward: Float3)
      modifies this`isActive, this`windData
      ensures windData == SettingsRecord(old(windData), forward) && isActive == (Strength != 0.0)
      ensures Consistent()
    {
      UpdateWind(forward);
    }

    /** The record `UpdateWind` publishes: settings and forward vector copied in, active exactly when the strength is non-zero. */
    function SettingsRecord(previous: GlobalWindData, forward: Float3): (r: GlobalWindData)
      reads this
      ensures r.Direction.xyz() == forward && r.Direction.w == previous.Direction.w
      ensures r.WindType == Type && r.Strength == Strength && r.Speed == Speed && r.Scale == Scale
      ensures r.IsActive <==> Strength != 0.0
    {
      previous.(Direction := previous.Direction.WithXyz(forward), WindType := Type,
        Strength := Strength, Speed := Speed, Scale := Scale, IsActive := Strength != 0.0)
    }

    /** `UpdateWind`: publish the settings and re-derive the active flag from the strength. */
    method UpdateWind(forward: Float3)
      modifies this`isActive, this`windData
      ensures windData == SettingsRecord(old(windData), forward) && isActive == (Strength != 0.0)
      ensures Consistent()
    {
      windData := windData.(Direction := windData.Direction.WithXyz(forward));
      windData := windData.(WindType := Type);
      windData := windData.(Strength := Strength);
      windData := windData.(Speed := Speed);
      windData := windData.(Scale := Scale);

      if Strength == 0.0 {
        isActive := false;
      } else {
        isActive := true;
      }

      windData := windData.(IsActive := isActive);
    }

    /** `OnEnable`: switch on; the rest of the record is kept. */
    method OnEnable()
      modifies this`isActive, this`windData
      ensures isActive && windData == old(windData).(IsActive := true)
      ensures Consistent()
    {
      isActive := true;
      windData := windData.(IsActive := isActive);
    }

    /** `OnDisable`: switch off; the rest of the record is kept. */
    method OnDisable()
      modifies this`isActive, this`windData
      ensures !isActive && windData == old(windData).(IsActive := false)
      ensures Consistent()
    {
      isActive := false;
      windData := windData.(IsActive := isActive);
    }
  }

  /** The records of a list of global winds, in order (`ConvertAll(w => w.WindData)`). */
  function WindDataOf(winds: seq<GlobalWind>): (r: seq<GlobalWindData>)
    reads winds
    ensures |r| == |winds|
    ensures forall i :: 0 <= i < |winds| ==> r[i] == winds[i].windData
  {
    if winds == [] then [] else WindDataOf(winds[..|winds| - 1]) + [winds[|winds| - 1].windData]
  }
}
