/**
 * Game/Common/RawSpawner.cs: a start/stop feeder that, while active, adds one
 * raw item from the item pool to the raw storage every SpawnInterval.
 *
 * Unity's StartCoroutine runs the routine's body up to its first yield before
 * returning, so StartSpawning performs the first spawn step itself, before
 * the routine handle is stored. Each later routine step is an explicit event.
 */
module RawSpawning {
  import opened Wrappers
  import opened Items
  import opened Storages
  import opened ItemPools

  /** `active` is _isActive; `routine` is whether _activeSpawnRoutine is non-null. */
  datatype Spawner = Spawner(active: bool, routine: bool)

  /** The spawner with what it feeds and draws from; `rawType` is the raw item definition's type. */
  datatype Feeder = Feeder(spawner: Spawner, raw: Storage, pool: ItemPool, rawType: ItemType)

  /** The spawner is active exactly when it has a running routine. */
  ghost predicate FeederInv(f: Feeder) {
    f.spawner.active == f.spawner.routine && Bounded(f.raw)
  }

  /** SpawnAndStoreItem: take an item of the raw type from the pool and offer it to the raw storage. */
  function SpawnAndStoreItem(f: Feeder): (r: Feeder)
    ensures |r.raw.items| <= |f.raw.items| + 1
    ensures r.spawner == f.spawner && r.rawType == f.rawType
    ensures Bounded(f.raw) ==> Bounded(r.raw)
    ensures r.raw.kind == f.raw.kind && r.raw.capacity == f.raw.capacity && r.raw.hasHolder == f.raw.hasHolder
    ensures Pushes(f.raw) && CanAddItem(f.raw) && (|f.raw.items| == 0 || f.raw.currentType == f.rawType) ==>
              |r.raw.items| == |f.raw.items| + 1 && r.raw.items[|f.raw.items|].itemType == f.rawType
  {
    var (item, pool) := SpawnItem(f.pool, f.rawType);
    f.(raw := TryAddItem(f.raw, Some(item)).store, pool := pool)
  }

  /** StopSpawning: ignored unless active with a routine; otherwise deactivates and clears the routine. */
  function StopSpawning(f: Feeder): (r: Feeder)
    ensures !f.spawner.active || !f.spawner.routine ==> r == f
    ensures f.spawner.active && f.spawner.routine ==> r == f.(spawner := Spawner(false, false))
  {
    if !f.spawner.active || !f.spawner.routine then f
    else f.(spawner := Spawner(false, false))
  }

  /** One iteration of SpawnItemsRoutine's loop. */
  function RoutineStep(f: Feeder): (r: Feeder)
    ensures !f.spawner.active ==> r == f
    ensures f.spawner.active && !CanAddItem(f.raw) ==> r == StopSpawning(f)
    ensures f.spawner.active && CanAddItem(f.raw) ==> r == SpawnAndStoreItem(f)
  {
    if !f.spawner.active then f
    else if CanAddItem(f.raw) then SpawnAndStoreItem(f)
    else StopSpawning(f)
  }

  /**
   * StartSpawning: ignored when already active or when the raw storage is full;
   * otherwise becomes active, runs the first routine step, then records the
   * routine.
   */
  function StartSpawning(f: Feeder): (r: Feeder)
    ensures f.spawner.active || !CanAddItem(f.raw) ==> r == f
    ensures !f.spawner.active && CanAddItem(f.raw) ==>
              r.spawner == Spawner(true, true) && |r.raw.items| <= |f.raw.items| + 1
  {
    if f.spawner.active || !CanAddItem(f.raw) then f
    else
      var started := RoutineStep(f.(spawner := Spawner(true, f.spawner.routine)));
      started.(spawner := started.spawner.(routine := true))
  }

  // ---------------------------------------------------------------------------
  // Properties
  // ---------------------------------------------------------------------------

  /** The initial spawner (inactive, no routine) over a bounded raw storage satisfies the invariant. */
  lemma InitialFeederInv(raw: Storage, pool: ItemPool, rawType: ItemType)
    requires Bounded(raw)
    ensures FeederInv(Feeder(Spawner(false, false), raw, pool, rawType))
  {
  }

  /** Every spawner operation keeps active == routine and never drives the raw storage past capacity. */
  lemma OperationsKeepFeederInv(f: Feeder)
    requires FeederInv(f)
    ensures FeederInv(StartSpawning(f))
    ensures FeederInv(StopSpawning(f))
    ensures FeederInv(RoutineStep(f))
  {
  }

  /** StopSpawning twice is StopSpawning once. */
  lemma StopIsIdempotent(f: Feeder)
    ensures StopSpawning(StopSpawning(f)) == StopSpawning(f)
  {
  }

  /** A routine step on a full raw storage stops the spawner and adds nothing. */
  lemma FullStorageStopsRoutine(f: Feeder)
    requires FeederInv(f) && f.spawner.active && !CanAddItem(f.raw)
    ensures RoutineStep(f) == f.(spawner := Spawner(false, false))
  {
  }
}
