/**
 * `VoxelWindManager` (Runtime/VoxelWindManager.cs): the scene's single
 * manager. The first instance to wake registers itself; later ones ask to be
 * destroyed. Every frame it rebuilds `LocalWinds` from the records of its
 * constant local winds, in list order.
 */
module WindManager {
  import opened WindData
  import opened LocalWinds

  /** The static `Instance` property, shared by every manager. */
  class ManagerRegistry {
    var Instance: VoxelWindManager?

    constructor ()
      ensures Instance == null
    {
      Instance := null;
    }
  }

  class VoxelWindManager {
    var ConstantLocalWinds: seq<LocalWind>
    var LocalWinds: seq<LocalWindData>
    /** Whether `Destroy(gameObject)` has been requested for this manager. */
    var destroyRequested: bool

    constructor ()
      ensures ConstantLocalWinds == [] && LocalWinds == [] && !destroyRequested
    {
      ConstantLocalWinds := [];
      LocalWinds := [];
      destroyRequested := false;
    }

    /** `Awake`: the first manager becomes `Instance`; a later one leaves `Instance` alone and is destroyed. */
    method Awake(registry: ManagerRegistry)
      modifies registry, this`destroyRequested
      ensures old(registry.Instance) == null ==> registry.Instance == this && destroyRequested == old(destroyRequested)
      ensures old(registry.Instance) != null ==> registry.Instance == old(registry.Instance) && destroyRequested
    {
      if registry.Instance != null {
        destroyRequested := true;
        return;
      }

      registry.Instance := this;
    }

    /** `Update`: clear `LocalWinds`, then append each constant local wind's record in list order. */
    method Update()
      modifies this`LocalWinds
      ensures LocalWinds == WindDataOf(ConstantLocalWinds)
    {
      LocalWinds := [];
      for i := 0 to |ConstantLocalWinds|
        invariant LocalWinds == WindDataOf(ConstantLocalWinds[..i])
      {
        assert ConstantLocalWinds[..i + 1][..i] == ConstantLocalWinds[..i];
        LocalWinds := LocalWinds + [ConstantLocalWinds[i].windData];
      }
      assert ConstantLocalWinds[..|ConstantLocalWinds|] == ConstantLocalWinds;
    }
  }

  /** Two managers waking in turn: the first keeps `Instance`, the second is destroyed. */
  method FirstManagerWins(registry: ManagerRegistry, first: VoxelWindManager, second: VoxelWindManager)
    requires registry.Instance == null && first != second && !first.destroyRequested
    modifies registry, first, second
    ensures registry.Instance == first && !first.destroyRequested && second.destroyRequested
  {
    first.Awake(registry);
    second.Awake(registry);
  }
}
