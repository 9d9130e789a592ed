/**
 * The whole logistics loop at once: the raw spawner feeding the raw storage,
 * the transformer draining the processing storage into the processed storage,
 * a trash storage, and the registered agents, each with its own character
 * storage and its "inside the raw area" flag. Everything that happens is one
 * Event; Step applies it with the component operations of the other modules.
 *
 * The main result is WorldInv: whatever order the events arrive in, the raw,
 * processing and character storages stay within capacity and hold one item
 * type, the trash stays empty, and every component keeps its own invariant.
 * The processed storage is the exception: deliveries are pushed without a
 * capacity check, so only "every item is typed" is kept there.
 */
module World {
  import opened Wrappers
  import opened Items
  import opened Storages
  import opened ItemPools
  import opened StorageInteraction
  import opened RawSpawning
  import opened AssetTransforming
  import opened AIControl
  import opened AIManagement

  datatype World = World(feeder: Feeder, plant: Plant, trash: Storage,
                         inventories: seq<Storage>, inRawArea: seq<bool>, roster: seq<Worker>)

  /**
   * An event. Agent events name the agent by its roster position; one with an
   * out-of-range position changes nothing. A whole ManageAI tick is the
   * sequence of AgentTick events over the roster, in order.
   */
  datatype Event =
    | SpawnerStart   // StartSpawning run by the RawSpawnerStartEvent subscription
    | SpawnerStep
    | AreaCheck(agent: nat, hit: bool)
    | Transfer(agent: nat, def: TransferDefinition, at: Option<Station>)
    | TransformerStep
    | TransformerMoveDone(k: nat)
    | TransformerTransformDone(k: nat)
    | TransformerDeliveryDone(k: nat)
    | ItemSettled(id: nat)
    | AgentFrame(agent: nat, near: set<Station>, jumped: bool)
    | AgentWaitElapsed(agent: nat)
    | AgentTick(agent: nat, near: set<Station>, stalled: bool, processedFound: bool)

  /** The storage standing at a station. */
  function StorageAt(w: World, st: Station): Storage {
    match st
    case RawPoint => w.feeder.raw
    case ProcessingPoint => w.plant.input
    case ProcessedPoint => w.plant.output
    case TrashPoint => w.trash
  }

  /** The world with the storage at a station replaced. */
  function WithStorageAt(w: World, st: Station, s: Storage): (r: World)
    ensures StorageAt(r, st) == s
    ensures forall other :: other != st ==> StorageAt(r, other) == StorageAt(w, other)
    ensures r.inventories == w.inventories && r.roster == w.roster && r.inRawArea == w.inRawArea
    ensures r.feeder.spawner == w.feeder.spawner && r.plant.t == w.plant.t
  {
    match st
    case RawPoint => w.(feeder := w.feeder.(raw := s))
    case ProcessingPoint => w.(plant := w.plant.(input := s))
    case ProcessedPoint => w.(plant := w.plant.(output := s))
    case TrashPoint => w.(trash := s)
  }

  /** The spawner command an area check issues, applied to the feeder. */
  function ApplyCommand(f: Feeder, command: SpawnerCommand): (r: Feeder)
    ensures command == NoCommand ==> r == f
    ensures command == StopSpawner && f.spawner.active == f.spawner.routine ==> !r.spawner.active
    ensures command == StartSpawner && CanAddItem(f.raw) ==> r.spawner.active
  {
    match command
    case NoCommand => f
    case StopSpawner => StopSpawning(f)
    case StartSpawner => StartSpawning(f)
  }

  /** Settle item `id` wherever it is stored or in flight. */
  function SettleEverywhere(w: World, id: nat): (r: World)
    ensures |r.inventories| == |w.inventories| && r.roster == w.roster && r.inRawArea == w.inRawArea
    ensures r.feeder.spawner == w.feeder.spawner && r.plant.t.activeCount == w.plant.t.activeCount
  {
    var settle := (it: Item) => if it.id == id then SetPlaced(it, true) else it;
    w.(feeder := w.feeder.(raw := MarkPlaced(w.feeder.raw, id)),
       plant := Plant(
         w.plant.t.(sequences := seq(|w.plant.t.sequences|, i requires 0 <= i < |w.plant.t.sequences| =>
                                       w.plant.t.sequences[i].(item := settle(w.plant.t.sequences[i].item))),
                    deliveries := seq(|w.plant.t.deliveries|, i requires 0 <= i < |w.plant.t.deliveries| =>
                                        settle(w.plant.t.deliveries[i]))),
         MarkPlaced(w.plant.input, id), MarkPlaced(w.plant.output, id)),
       trash := MarkPlaced(w.trash, id),
       inventories := seq(|w.inventories|, i requires 0 <= i < |w.inventories| => MarkPlaced(w.inventories[i], id)))
  }

  /** Apply one event. */
  function Step(w: World, e: Event): World
    requires |w.inventories| == |w.roster| == |w.inRawArea|
  {
    match e
    case SpawnerStart => w.(feeder := StartSpawning(w.feeder))
    case SpawnerStep => w.(feeder := RoutineStep(w.feeder))
    case AreaCheck(i, hit) =>
      if i < |w.roster| then
        var status := CheckRawStorageAreaStatus(w.inRawArea[i], hit, CanAddItem(w.inventories[i]));
        w.(inRawArea := w.inRawArea[i := status.inRawArea], feeder := ApplyCommand(w.feeder, status.command))
      else w
    case Transfer(i, def, at) =>
      if i < |w.roster| && at.Some? then
        var r := ProcessTransfer(def, Some(StorageAt(w, at.value)), w.inventories[i]);
        WithStorageAt(w, at.value, r.0.value).(inventories := w.inventories[i := r.1])
      else w
    case TransformerStep => w.(plant := CycleStep(w.plant))
    case TransformerMoveDone(k) => w.(plant := MoveCompleted(w.plant, k))
    case TransformerTransformDone(k) => w.(plant := TransformCompleted(w.plant, k))
    case TransformerDeliveryDone(k) => w.(plant := DeliveryCompleted(w.plant, k))
    case ItemSettled(id) => SettleEverywhere(w, id)
    case AgentFrame(i, near, jumped) =>
      if i < |w.roster| then
        w.(roster := w.roster[i := w.roster[i].(ctl := FrameUpdate(w.roster[i].ctl, near, jumped))])
      else w
    case AgentWaitElapsed(i) =>
      if i < |w.roster| then
        w.(roster := w.roster[i := w.roster[i].(ctl := WaitElapsed(w.roster[i].ctl))])
      else w
    case AgentTick(i, near, stalled, found) =>
      if i < |w.roster| then
        var obs := Observation(Count(w.inventories[i]), near, stalled);
        var processed := if found then Some(Count(w.plant.output)) else None;
        w.(roster := w.roster[i := TickWorker(w.roster[i], obs, processed).worker])
      else w
  }

  // ---------------------------------------------------------------------------
  // The invariant
  // ---------------------------------------------------------------------------

  /** A storage within capacity and holding one item type. */
  ghost predicate Sound(s: Storage) {
    Bounded(s) && TypeLock(s)
  }

  ghost predicate WorldInv(w: World) {
    && |w.inventories| == |w.roster| == |w.inRawArea|
    && w.feeder.rawType != NoType && w.plant.t.processedType != NoType
    && FeederInv(w.feeder) && PlantInv(w.plant)
    && Sound(w.feeder.raw) && Sound(w.plant.input) && AllTyped(w.plant.output)
    && w.trash.kind == TrashStore && w.trash.capacity == DefaultCapacity
    && w.trash.items == [] && w.trash.currentType == NoType
    && (forall i | 0 <= i < |w.inventories| ::
          && w.inventories[i].kind == CharacterStore && w.inventories[i].capacity == DefaultCapacity
          && Sound(w.inventories[i]))
    && (forall i | 0 <= i < |w.roster| :: WorkerInv(w.roster[i]))
  }

  /**
   * The world once every Start has run: the spawner has been started (and its
   * first item is already in the raw storage), the other storages are empty,
   * the transformer is idle and the agents are freshly registered.
   */
  function InitialWorld(rawType: ItemType, processedType: ItemType, hasTransformPoint: bool, agents: seq<Controller>): (w: World)
    ensures |w.roster| == |agents| && DistinctIds(w.roster)
    ensures forall i | 0 <= i < |w.roster| :: w.roster[i].id == i && w.roster[i].ctl == agents[i]
    ensures forall i | 0 <= i < |w.inventories| :: Count(w.inventories[i]) == 0
    ensures w.feeder.spawner.active && Count(w.feeder.raw) == 1
  {
    var raw := NewStorage(RawStore, true);
    World(StartSpawning(Feeder(Spawner(false, false), raw, NewItemPool(rawType), rawType)),
          Plant(Transformer(0, [], [], hasTransformPoint, processedType),
                NewStorage(ProcessingStore, true), NewStorage(ProcessedStore, true)),
          NewStorage(TrashStore, true),
          seq(|agents|, i => NewStorage(CharacterStore, true)),
          seq(|agents|, i => false),
          seq(|agents|, i requires 0 <= i < |agents| => Worker(i, agents[i], FreshBook)))
  }

  lemma InitialWorldInv(rawType: ItemType, processedType: ItemType, hasTransformPoint: bool, agents: seq<Controller>)
    requires rawType != NoType && processedType != NoType
    ensures WorldInv(InitialWorld(rawType, processedType, hasTransformPoint, agents))
  {
    var idle := Feeder(Spawner(false, false), NewStorage(RawStore, true), NewItemPool(rawType), rawType);
    InitialFeederInv(idle.raw, idle.pool, rawType);
    SpawnerKeepsRaw(idle);
  }

  // ---------------------------------------------------------------------------
  // Preservation, one event family at a time
  // ---------------------------------------------------------------------------

  lemma SpawnerKeepsRaw(f: Feeder)
    requires FeederInv(f) && TypeLock(f.raw) && f.rawType != NoType
    ensures FeederInv(RoutineStep(f)) && Sound(RoutineStep(f).raw)
    ensures FeederInv(StartSpawning(f)) && Sound(StartSpawning(f).raw)
    ensures FeederInv(StopSpawning(f)) && Sound(StopSpawning(f).raw)
  {
    OperationsKeepFeederInv(f);
    var item := SpawnItem(f.pool, f.rawType).0;
    TryAddKeepsInvariants(f.raw, Some(item));
    var g := f.(spawner := Spawner(true, f.spawner.routine));
    TryAddKeepsInvariants(g.raw, Some(SpawnItem(g.pool, g.rawType).0));
  }

  lemma TransferKeepsWorldInv(w: World, i: nat, def: TransferDefinition, st: Station)
    requires WorldInv(w) && i < |w.roster|
    ensures WorldInv(Step(w, Transfer(i, def, Some(st))))
  {
    var near := StorageAt(w, st);
    var ch := w.inventories[i];
    TypeLockImpliesAllTyped(w.feeder.raw);
    TypeLockImpliesAllTyped(w.plant.input);
    TypeLockImpliesAllTyped(ch);
    ProcessTransferKeepsInvariants(def, near, ch);
    var r := ProcessTransfer(def, Some(near), ch);
    if st == TrashPoint {
      forall it: Item ensures TryAddItem(w.trash, Some(it)).store == w.trash {
        TrashStaysEmpty(w.trash, Some(it));
      }
      assert r.0.value.items == [] && r.0.value.currentType == NoType;
    }
    var w' := Step(w, Transfer(i, def, Some(st)));
    assert w'.inventories == w.inventories[i := r.1];
    forall j | 0 <= j < |w'.inventories|
      ensures w'.inventories[j].kind == CharacterStore && w'.inventories[j].capacity == DefaultCapacity
      ensures Sound(w'.inventories[j])
    {
      if j != i { assert w'.inventories[j] == w.inventories[j]; }
    }
  }

  lemma AreaCheckKeepsWorldInv(w: World, i: nat, hit: bool)
    requires WorldInv(w)
    ensures WorldInv(Step(w, AreaCheck(i, hit)))
  {
    SpawnerKeepsRaw(w.feeder);
  }

  lemma TransformerKeepsWorldInv(w: World, e: Event)
    requires WorldInv(w)
    requires e.TransformerStep? || e.TransformerMoveDone? || e.TransformerTransformDone? || e.TransformerDeliveryDone?
    ensures WorldInv(Step(w, e))
  {
    var p := w.plant;
    var k := if e.TransformerStep? then 0 else e.k;
    EventsKeepPlantInv(p, k);
    EventsKeepInputInvariants(p, k);
    if e.TransformerDeliveryDone? && k < |p.t.deliveries| {
      OperationsKeepAllTyped(p.output, SetPlaced(p.t.deliveries[k], true), 0);
    }
  }

  lemma SettleKeepsWorldInv(w: World, id: nat)
    requires WorldInv(w)
    ensures WorldInv(Step(w, ItemSettled(id)))
  {
    var w' := Step(w, ItemSettled(id));
    MarkPlacedKeepsInvariants(w.feeder.raw, id);
    MarkPlacedKeepsInvariants(w.plant.input, id);
    OperationsKeepAllTyped(w.plant.output, Item(0, w.plant.t.processedType, false), id);
    forall j | 0 <= j < |w'.inventories|
      ensures w'.inventories[j].kind == CharacterStore && w'.inventories[j].capacity == DefaultCapacity
      ensures Sound(w'.inventories[j])
    {
      MarkPlacedKeepsInvariants(w.inventories[j], id);
    }
    forall j | 0 <= j < |w'.plant.t.deliveries|
      ensures w'.plant.t.deliveries[j].itemType == w'.plant.t.processedType
    {
      assert w.plant.t.deliveries[j].itemType == w.plant.t.processedType;
    }
  }

  lemma AgentEventsKeepWorldInv(w: World, e: Event)
    requires WorldInv(w)
    requires e.AgentFrame? || e.AgentWaitElapsed? || e.AgentTick?
    ensures WorldInv(Step(w, e))
  {
    if e.agent < |w.roster| {
      var i := e.agent;
      var w' := Step(w, e);
      match e
      case AgentFrame(_, near, jumped) => ControllerEventsKeepWorkerInv(w.roster[i], near, jumped);
      case AgentWaitElapsed(_) => ControllerEventsKeepWorkerInv(w.roster[i], {}, false);
      case AgentTick(_, near, stalled, found) =>
        TickWorkerKeepsWorkerInv(w.roster[i], Observation(Count(w.inventories[i]), near, stalled),
                                 if found then Some(Count(w.plant.output)) else None);
      forall j | 0 <= j < |w'.roster| ensures WorkerInv(w'.roster[j]) {
        if j != i { assert w'.roster[j] == w.roster[j]; }
      }
    }
  }

  /** Every event keeps the world invariant. */
  lemma StepKeepsWorldInv(w: World, e: Event)
    requires WorldInv(w)
    ensures WorldInv(Step(w, e))
  {
    match e
    case SpawnerStart => SpawnerKeepsRaw(w.feeder);
    case SpawnerStep => SpawnerKeepsRaw(w.feeder);
    case AreaCheck(i, hit) => AreaCheckKeepsWorldInv(w, i, hit);
    case Transfer(i, def, at) => if i < |w.roster| && at.Some? { TransferKeepsWorldInv(w, i, def, at.value); }
    case TransformerStep => TransformerKeepsWorldInv(w, e);
    case TransformerMoveDone(_) => TransformerKeepsWorldInv(w, e);
    case TransformerTransformDone(_) => TransformerKeepsWorldInv(w, e);
    case TransformerDeliveryDone(_) => TransformerKeepsWorldInv(w, e);
    case ItemSettled(id) => SettleKeepsWorldInv(w, id);
    case AgentFrame(_, _, _) => AgentEventsKeepWorldInv(w, e);
    case AgentWaitElapsed(_) => AgentEventsKeepWorldInv(w, e);
    case AgentTick(_, _, _, _) => AgentEventsKeepWorldInv(w, e);
  }

  /** Apply a run of events in order. */
  function Run(w: World, events: seq<Event>): World
    requires WorldInv(w)
    decreases |events|
  {
    if |events| == 0 then w
    else
      StepKeepsWorldInv(w, events[0]);
      Run(Step(w, events[0]), events[1..])
  }

  /** Every reachable world satisfies the invariant: every character storage holds at most 50 items of one type. */
  lemma {:induction false} RunKeepsWorldInv(w: World, events: seq<Event>)
    requires WorldInv(w)
    ensures WorldInv(Run(w, events))
    ensures forall i | 0 <= i < |Run(w, events).inventories| ::
              Count(Run(w, events).inventories[i]) <= MaxInventoryCapacity
    decreases |events|
  {
    if |events| > 0 {
      StepKeepsWorldInv(w, events[0]);
      RunKeepsWorldInv(Step(w, events[0]), events[1..]);
    }
  }
}
