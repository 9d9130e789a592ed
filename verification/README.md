# Logistics loop: a Dafny model

This project models the core of a small Unity logistics game. A raw spawner
feeds items into a raw storage. Agents (and the player) carry items from the
raw storage to a processing storage. A transformer turns them into processed
items and delivers them to a processed storage. Agents then carry the
processed items to a trash storage, which turns each one into a coin event
and returns it to the item pool.

Every storage is a last-in-first-out stack with a capacity of 50 and a type
lock: an empty storage takes the type of its first item and then refuses
other types. The agents run an eight-state cycle
(going to / waiting at raw, processing, processed and trash), driven by a
manager that ticks every 0.5 s. Coin events and the spawner-start event go
through a static event bus.

## Modelling choices

- **Time.** Time is an integer count of half-seconds. The 0.5 s tick is 1,
  the 5 s stuck window is 10, the 15 s wait limit is 30 and the 0.5 s
  settle time is 1. Every timer AIManager keeps advances in 0.5 s steps
  (`AIManager.cs:104`, `AIManager.cs:185`), so this is exact.
- **Geometry becomes inputs.** Physics and navigation queries are supplied
  as inputs:
  - `near` is the set of stations within the 2-unit interaction distance;
  - `stalled` means the agent moved less than 0.2 since the last stuck check;
  - `jumped` means its position moved more than 1.0 in one frame;
  - `hit` is the overlap test against the raw storage layer;
  - the nearest storage of a transfer definition is an `Option`.
- **Null references.** A null reference is `None`. A storage whose item
  holder is missing has `hasHolder == false`.
- **Stacks.** A storage's stack is a `seq<Item>`; the last element is the top.
  Items are values; `Item.id` stands for object identity.
- **Coroutines and animations.** Each of these is an explicit event, in the
  `World` module and in the transformer:
  - a coroutine step;
  - the completion of an animation (which sets the item's placed flag);
  - the end of a `WaitAtLocation`.

  Unity's `StartCoroutine` runs the routine up to its first `yield` before
  returning. So `StartSpawning` performs the first spawn step itself, and
  only then stores the routine handle.

  The end of a `WaitAtLocation` is an event that may arrive at any time,
  whether or not a wait is pending, and the `World` module does not use the
  manager's request to start another 2 s wait. This over-approximates both
  the controller's idle wait and the manager's restarted waits, so every
  invariant proved over `World` runs also holds for the runs the source can
  produce.
- **Event bus.** Each per-type dictionary is an association list sorted by
  key, and carries an identity so that `Publish` can tell whether the
  dictionary object it captured is still the live one. What a handler does to
  the bus while it runs is a parameter, `effects: Handler -> seq<BusOp>`.
- **Integer arithmetic.** C#'s truncating `/` and `%` are written out as
  `CsDiv` and `CsRem`.
- **Processed storage.** `ProcessedStorage.cs` is not part of this model. The
  processed storage is modelled as a pushing storage like the raw and
  processing storages.
- **Source behaviour kept as written.** Three rules of the agent manager
  that a reader might expect to be symmetric are modelled exactly as coded:
  - At the processing storage the "settled progress" exit requires the agent
    to be NOT waiting (`AIManager.cs:257`). The other three waiting states
    require it to be waiting.
  - Only the raw storage timeout forces the cycle target to at least 1
    (`AIManager.cs:203`). The processing timeout leaves the target unchanged
    (`ProcessingTimeoutKeepsCycle`).
  - At the processed storage, progress is the absolute inventory count, not
    a difference from the count on arrival (`AIManager.cs:294`).

## Files

| file | module | models |
|---|---|---|
| wrappers.dfy | `Wrappers` | `Option` |
| items.dfy | `Items` | `Item.cs`, `ItemType` |
| storages.dfy | `Storages` | `StorageBase.cs` and the `PositionItem` of each storage subclass |
| grid.dfy | `PositionUtils` | the integer part of `CalculateGridPosition` |
| pools.dfy | `ObjectPools`, `ItemPools` | `ObjectPool.cs`, `ItemPool.cs` |
| interaction.dfy | `StorageInteraction` | `CharacterStorageInteraction.cs` |
| spawner.dfy | `RawSpawning` | `RawSpawner.cs` |
| transformer.dfy | `AssetTransforming` | `AssetTransformer.cs` |
| controller.dfy | `AIControl` | `AIController.cs` |
| manager.dfy | `AIManagement` | `AIManager.cs` |
| eventbus.dfy | `EventBus` | `EventBus.cs` |
| world.dfy | `World` | all of the above composed; one event at a time |

## Model

| member | source | states |
|---|---|---|
| Items.FreshItem | Assets/Scripts/Game/Common/Item.cs:19-25 | A newly instantiated item is not placed and keeps the type serialized on the prefab. |
| Items.SetPlaced | Assets/Scripts/Game/Common/Item.cs:27-30 | Only the placed flag changes, to exactly the given value. |
| Items.InitializeItem | Assets/Scripts/Game/Common/Item.cs:32-43 | Whatever the mesh and material branches do, the item ends with the definition's type; identity and placed flag are untouched. |
| Items.ResetItem | Assets/Scripts/Game/Common/Item.cs:59-63 | A returned item has no type and is not placed. |
| Items.SetPlacedLastWins | Assets/Scripts/Game/Common/Item.cs:27-30 | Two SetPlaced calls act as the second alone. |
| Items.ResetForgetsHistory | Assets/Scripts/Game/Common/Item.cs:59-63 | Reset erases any earlier initialisation and placement. |
| Storages.NewStorage | Assets/Scripts/Game/Storage/StorageBase.cs:11-14 | A new storage is empty, untyped and has capacity 50. |
| Storages.PeekItem | Assets/Scripts/Game/Storage/StorageBase.cs:46-49 | The top item, and nothing exactly when the stack is empty. |
| Storages.PushItem | Assets/Scripts/Game/Storage/StorageBase.cs:51-61 | A present item goes on top with no capacity or type check; the first item of an empty stack sets the type; null is ignored. |
| Storages.PositionItem | Assets/Scripts/Game/Storage/RawStorage.cs:17-38 | Without a holder nothing is stored. Trash with a holder disposes of the item. Any other storage with a holder pushes it at slot index = previous count. |
| Storages.TryAddItem | Assets/Scripts/Game/Storage/StorageBase.cs:26-44 | Rejected exactly when full, null, or the stack is non-empty, typed and of another type. A rejected add changes nothing. An accepted add on a pushing storage appends the item. |
| Storages.TryRemoveItem | Assets/Scripts/Game/Storage/StorageBase.cs:63-79 | Empty: returns nothing and changes nothing. Otherwise it pops the top, and the type lock is released exactly when the stack becomes empty. |
| Storages.MarkPlaced | Assets/Scripts/Utilities/AnimationUtils.cs:25-29 | A completed animation sets the placed flag of that item wherever it is stored; nothing else changes. |
| Storages.GuardsMeaning | Assets/Scripts/Game/Storage/StorageBase.cs:16-24 | CanAddItem iff count < capacity; CanRemoveItem iff non-empty iff PeekItem returns an item. |
| Storages.TryAddKeepsInvariants | Assets/Scripts/Game/Storage/StorageBase.cs:26-44 | For typed items the guarded add keeps count ≤ capacity and keeps the stack homogeneous with its recorded type. |
| Storages.OperationsKeepAllTyped | Assets/Scripts/Game/Storage/StorageBase.cs:26-79 | Adding, pushing and removing typed items, and settling an item, keep every stored item typed. |
| Storages.TypeLockImpliesAllTyped | Assets/Scripts/Game/Storage/StorageBase.cs:38-41 | In a type-locked storage every item carries a type. |
| Storages.MarkPlacedKeepsInvariants | Assets/Scripts/Utilities/AnimationUtils.cs:25-29 | Settling an item keeps the capacity bound and the type lock. |
| Storages.TryRemoveKeepsInvariants | Assets/Scripts/Game/Storage/StorageBase.cs:63-79 | Removing keeps the capacity bound and the type lock (including the reset to None on empty). |
| Storages.PushKeepsTypeLock | Assets/Scripts/Game/Storage/StorageBase.cs:51-61 | Pushing an item of the storage's type (or any typed item onto an empty one) keeps the type lock. |
| Storages.PushIgnoresCapacity | Assets/Scripts/Game/Storage/StorageBase.cs:51-61 | Pushing onto a full storage breaks the capacity bound, where TryAddItem would reject. |
| Storages.UntypedItemUnlocksStorage | Assets/Scripts/Game/Storage/StorageBase.cs:31-41 | An item of type None is accepted by an empty storage and leaves it untyped; a second item of another type is then accepted too. |
| Storages.AddThenRemoveRoundTrip | Assets/Scripts/Game/Storage/StorageBase.cs:26-79 | An accepted add followed by a remove returns that item and the original storage. |
| Storages.TrashStaysEmpty | Assets/Scripts/Game/Storage/TrashStorage.cs:22-33 | Trash accepts every present item and stays empty and untyped. With a holder the item is disposed of (one coin event published, the item handed back to the pool); without one nothing happens, yet the add still succeeds. |
| Storages.MissingHolderAcceptsWithoutPushing | Assets/Scripts/Game/Storage/RawStorage.cs:19-20 | With a missing holder a compatible add is accepted but nothing is stored. |
| Storages.CanCarryMeaning | Assets/Scripts/Game/Storage/CharacterStorage.cs:20-26 | Any type fits an empty or untyped inventory; otherwise only the locked type does. |
| Storages.CanCarryMatchesTypeCheck | Assets/Scripts/Game/Storage/CharacterStorage.cs:20-26 | On a type-locked inventory with room, CanCarryItemType agrees exactly with TryAddItem's acceptance. |
| PositionUtils.CsDiv | Assets/Scripts/Utilities/PositionUtils.cs:15-20 | C# division truncates toward zero: for a ≥ 0 the quotient q is non-negative with q·b ≤ a < q·b + b; for a < 0 it is non-positive with q·b − b < a ≤ q·b. |
| PositionUtils.CsRem | Assets/Scripts/Utilities/PositionUtils.cs:15-20 | C# remainder: dividend = divisor × quotient + remainder, with the sign of the dividend. |
| PositionUtils.GridCell | Assets/Scripts/Utilities/PositionUtils.cs:10-30 | Layer, row and column recompose the index (layer·25 + z·5 + x). For a non-negative index they lie in the 5×5 grid; for a negative one they lie in (−5, 0]. |
| PositionUtils.RowModuloIsRedundant | Assets/Scripts/Utilities/PositionUtils.cs:20 | The final `% GridHeight` on the row never changes it. |
| PositionUtils.GridCellInjective | Assets/Scripts/Utilities/PositionUtils.cs:10-30 | Two different stack indices never share a cell. |
| PositionUtils.LayerIsTwentyFiveConsecutiveIndices | Assets/Scripts/Utilities/PositionUtils.cs:15 | A layer holds exactly the indices layer·25 … layer·25 + 24. |
| ObjectPools.NewPool | Assets/Scripts/Pool/ObjectPool.cs:15-28 | The pool starts with `initialSize` fresh objects queued in creation order. |
| ObjectPools.Get | Assets/Scripts/Pool/ObjectPool.cs:37-44 | Get gives the oldest queued object, or a newly created one when the queue is empty. |
| ObjectPools.Return | Assets/Scripts/Pool/ObjectPool.cs:46-54 | A null return is ignored. Otherwise the callback runs and the object joins the back of the queue. |
| ObjectPools.ReuseIsFifo | Assets/Scripts/Pool/ObjectPool.cs:37-54 | FIFO reuse for any pool: after returning a batch, getting as many objects as are pooled hands out the objects already pooled first, then the batch in the order returned (after the return callback), with nothing created and the pool left empty. |
| ObjectPools.ReturnAllQueuesAtBack | Assets/Scripts/Pool/ObjectPool.cs:46-54 | Returning a batch enqueues it, after the return callback, behind the objects already pooled, creating nothing. |
| ObjectPools.GetManyTakesFront | Assets/Scripts/Pool/ObjectPool.cs:37-44 | Getting no more objects than are pooled takes them from the front, in order, creating nothing. |
| ObjectPools.ReturnThenGet | Assets/Scripts/Pool/ObjectPool.cs:37-54 | On an empty pool, returning an object and getting one gives back that object, without creating. |
| ItemPools.NewItemPool | Assets/Scripts/Pool/ItemPool.cs:10-23 | 60 fresh items, none placed, all of the prefab type. |
| ItemPools.ReturnItem | Assets/Scripts/Pool/ItemPool.cs:25-29 | A returned item is reset (no type, not placed) and queued; the pool invariant is kept. |
| ItemPools.SpawnItem | Assets/Scripts/Pool/ItemPool.cs:31-44 | A spawned item has the definition's type. It is the oldest pooled item, or a new one when the pool is empty. From a sound pool it is never placed. |
| ItemPools.ReturnedItemIsRespawned | Assets/Scripts/Pool/ItemPool.cs:25-44 | An item returned to an empty pool comes back with the same identity, the new type, and not placed. |
| StorageInteraction.TransferBetweenStorages | Assets/Scripts/Game/Storage/CharacterStorageInteraction.cs:147-172 | Nothing changes unless every guard holds. Otherwise the top item moves unplaced to the destination; if the destination refuses it, it is offered back to the source. Kind, capacity and holder are kept. |
| StorageInteraction.ProcessTransfer | Assets/Scripts/Game/Storage/CharacterStorageInteraction.cs:95-109 | With no nearest storage nothing happens; otherwise the move goes storage to character or character to storage, by direction. |
| StorageInteraction.CheckRawStorageAreaStatus | Assets/Scripts/Game/Storage/CharacterStorageInteraction.cs:63-93 | The area flag becomes the overlap result. The spawner is stopped iff the agent enters the area with room in its inventory, and started iff it leaves the area. |
| StorageInteraction.TransferMovesTopItem | Assets/Scripts/Game/Storage/CharacterStorageInteraction.cs:147-172 | A permitted move into a compatible pushing storage pops exactly the source's top item and appends it, unplaced, to the destination. |
| StorageInteraction.TransferPreservesTotalCount | Assets/Scripts/Game/Storage/CharacterStorageInteraction.cs:162-170 | Between pushing storages, with a type-locked source, the combined item count never changes: a refused item always fits back. |
| StorageInteraction.TransferKeepsInvariants | Assets/Scripts/Game/Storage/CharacterStorageInteraction.cs:147-172 | Each side keeps its capacity bound and type lock if it had them, whatever the other side is; typed items stay typed. |
| StorageInteraction.ProcessTransferKeepsInvariants | Assets/Scripts/Game/Storage/CharacterStorageInteraction.cs:95-109 | The same for both directions, and the kinds and capacities are kept. |
| StorageInteraction.NoTransferIntoIncompatibleCharacter | Assets/Scripts/Game/Storage/CharacterStorageInteraction.cs:157-160 | An inventory that cannot carry the type receives nothing, and the source keeps its item. |
| StorageInteraction.NoTransferOfUnsettledOrOtherItem | Assets/Scripts/Game/Storage/CharacterStorageInteraction.cs:153-155 | A top item that is still animating, or of another type, is not moved. |
| RawSpawning.SpawnAndStoreItem | Assets/Scripts/Game/Common/RawSpawner.cs:86-90 | At most one item is added, of the raw type, and it is added whenever the raw storage pushes, has room and takes the raw type. The capacity bound is kept. |
| RawSpawning.StopSpawning | Assets/Scripts/Game/Common/RawSpawner.cs:58-66 | Ignored unless active with a routine; otherwise inactive with no routine. |
| RawSpawning.RoutineStep | Assets/Scripts/Game/Common/RawSpawner.cs:68-84 | An inactive routine does nothing. With room it spawns; on a full storage it stops the spawner. |
| RawSpawning.StartSpawning | Assets/Scripts/Game/Common/RawSpawner.cs:49-56 | Ignored when already active or when the raw storage is full. Otherwise the spawner ends active with a routine, having added at most one item. |
| RawSpawning.InitialFeederInv | Assets/Scripts/Game/Common/RawSpawner.cs:16-17 | A spawner in its initial state (not active, no routine) over a bounded raw storage satisfies the invariant. |
| RawSpawning.OperationsKeepFeederInv | Assets/Scripts/Game/Common/RawSpawner.cs:49-84 | Start, stop and routine steps keep "active iff a routine runs" and never overfill the raw storage. |
| RawSpawning.StopIsIdempotent | Assets/Scripts/Game/Common/RawSpawner.cs:58-66 | Stopping twice is stopping once. |
| RawSpawning.FullStorageStopsRoutine | Assets/Scripts/Game/Common/RawSpawner.cs:72-80 | A routine step on a full raw storage stops the spawner and adds nothing. |
| AssetTransforming.StartSequence | Assets/Scripts/Game/Common/AssetTransformer.cs:89-100 | The counter goes up by one and a new sequence for the item starts; storages and deliveries are untouched. |
| AssetTransforming.CycleStep | Assets/Scripts/Game/Common/AssetTransformer.cs:63-87 | Nothing happens while the output is full. Otherwise the input's top item, if any, leaves the input and starts a sequence. The item total is unchanged. |
| AssetTransforming.MoveCompleted | Assets/Scripts/Game/Common/AssetTransformer.cs:131-146 | Only a moving sequence is affected: its item becomes placed and the transform wait begins. |
| AssetTransforming.TransformItem | Assets/Scripts/Game/Common/AssetTransformer.cs:114-117 | The item takes the processed type and keeps its identity. |
| AssetTransforming.TransferItemToTargetStorage | Assets/Scripts/Game/Common/AssetTransformer.cs:119-129 | The item is delivered if the output has room now; otherwise it is offered back to the input. |
| AssetTransforming.TransformCompleted | Assets/Scripts/Game/Common/AssetTransformer.cs:102-106 | Only a transforming sequence is affected. It is removed, and the counter goes down. Its transformed item goes to delivery or back to the input. The output is untouched. |
| AssetTransforming.DeliveryCompleted | Assets/Scripts/Game/Common/AssetTransformer.cs:148-166 | The delivered item is placed and pushed onto the output with no capacity check. The item total is unchanged. |
| AssetTransforming.InitialPlantInv | Assets/Scripts/Game/Common/AssetTransformer.cs:91 | An idle transformer: counter zero, nothing running. |
| AssetTransforming.EventsKeepPlantInv | Assets/Scripts/Game/Common/AssetTransformer.cs:89-112 | The counter always equals the number of running sequences, and every delivery has the processed type. |
| AssetTransforming.EventsKeepInputInvariants | Assets/Scripts/Game/Common/AssetTransformer.cs:75-127 | For a typed processed definition, the input keeps its capacity bound and type lock. |
| AssetTransforming.TransformCompletedAccounting | Assets/Scripts/Game/Common/AssetTransformer.cs:119-129 | A handed-over item stays accounted for when the output has room or the input takes it back. |
| AssetTransforming.FallbackDropsItemOnTypeClash | Assets/Scripts/Game/Common/AssetTransformer.cs:125-128 | With a full output and raw items in the input, the processed item is refused and leaves the model: the item total drops by one. |
| AssetTransforming.OverlappingDeliveriesOverfillOutput | Assets/Scripts/Game/Common/AssetTransformer.cs:121-161 | Two hand-overs checked against one free slot both get delivered, leaving the output one over capacity. |
| AIControl.InitialController | Assets/Scripts/Game/AI/AIController.cs:51-60 | An agent starts heading for raw storage, with no target, not waiting. |
| AIControl.ForceStopWaiting | Assets/Scripts/Game/AI/AIController.cs:97-114 | Afterwards the agent is not waiting. State and target are kept; a non-waiting agent is unchanged. |
| AIControl.SetTarget | Assets/Scripts/Game/AI/AIController.cs:116-126 | A null target is ignored; otherwise it becomes the target. State and waiting are kept. |
| AIControl.SetState | Assets/Scripts/Game/AI/AIController.cs:128-132 | The new state, with any wait cancelled and the target kept. |
| AIControl.CheckTargetReached | Assets/Scripts/Game/AI/AIController.cs:68-75 | Afterwards the agent is waiting iff it was already waiting or its target is within reach. |
| AIControl.CheckPositionChanged | Assets/Scripts/Game/AI/AIController.cs:77-95 | A jump cancels the wait; without a jump nothing changes. |
| AIControl.FrameUpdate | Assets/Scripts/Game/AI/AIController.cs:44-49 | After a frame the agent waits exactly when it did not jump and it was waiting or has arrived. |
| AIControl.WaitElapsed | Assets/Scripts/Game/AI/AIController.cs:158-169 | The end of a wait clears the waiting flag only. |
| AIControl.ForceStopWaitingIdempotent | Assets/Scripts/Game/AI/AIController.cs:97-114 | Stopping a wait twice is stopping it once. |
| AIControl.NoTargetNoArrival | Assets/Scripts/Game/AI/AIController.cs:139-146 | Without a target nothing is reached and no wait starts. |
| AIControl.WaitStartsOnlyOnArrival | Assets/Scripts/Game/AI/AIController.cs:68-75 | A wait starts only when a target is set and within reach. |
| AIManagement.RegisterAI | Assets/Scripts/Game/AI/AIManager.cs:39-51 | A known agent is ignored; a new one is appended with zeroed bookkeeping. The registered set gains exactly the id, and ids stay distinct. |
| AIManagement.SetNextState | Assets/Scripts/Game/AI/AIManager.cs:389-393 | The new state, with the wait cancelled and the wait timer zeroed; everything else is kept. |
| AIManagement.ObserveDelta | Assets/Scripts/Game/AI/AIManager.cs:184-192 | The last delta becomes the new one. A changed delta zeroes the wait timer; an unchanged one advances it by one tick while waiting. |
| AIManagement.HandleGoingTo | Assets/Scripts/Game/AI/AIManager.cs:159-172 | The target is re-asserted. The agent switches to the waiting state iff its station is within reach and it is waiting; it then records its count as baseline. Otherwise nothing but the target changes. |
| AIManagement.HandleWaitingAtRaw | Assets/Scripts/Game/AI/AIManager.cs:174-210 | Inert in any other state; the baseline is never touched (its transitions: RawExitSetsCycle). |
| AIManagement.HandleWaitingAtProcessing | Assets/Scripts/Game/AI/AIManager.cs:227-269 | Inert in any other state; the baseline and the cycle target are never touched. |
| AIManagement.HandleWaitingAtProcessed | Assets/Scripts/Game/AI/AIManager.cs:286-335 | Inert in any other state; the baseline is never touched. |
| AIManagement.HandleWaitingAtTrash | Assets/Scripts/Game/AI/AIManager.cs:352-387 | Inert in any other state; the baseline and the cycle target are never touched. |
| AIManagement.UpdateAIState | Assets/Scripts/Game/AI/AIManager.cs:150-157 | Dispatching to the state's handler keeps the agent's identity. |
| AIManagement.ForceResetState | Assets/Scripts/Game/AI/AIManager.cs:125-148 | The same travelling state is re-issued with its station as target and no wait. |
| AIManagement.CheckIfStuck | Assets/Scripts/Game/AI/AIManager.cs:84-123 | The stuck timer is zeroed unless a non-waiting traveller stalled. In that case it advances, and at 5 s the agent is re-sent to its station and the timer zeroed. The state never changes. |
| AIManagement.TickWorker | Assets/Scripts/Game/AI/AIManager.cs:72-78 | The handler followed by stuck detection keeps the agent's identity. |
| AIManagement.FreshWorkerInv | Assets/Scripts/Game/AI/AIManager.cs:44-49 | Freshly registered bookkeeping satisfies the timer invariant. |
| AIManagement.UpdateKeepsWorkerInv | Assets/Scripts/Game/AI/AIManager.cs:150-387 | State handlers keep the wait timer in [0, 15 s), zero while travelling, and the stuck timer in [0, 5 s). |
| AIManagement.TickWorkerKeepsWorkerInv | Assets/Scripts/Game/AI/AIManager.cs:72-123 | A full agent tick keeps the timer invariant. |
| AIManagement.ControllerEventsKeepWorkerInv | Assets/Scripts/Game/AI/AIController.cs:44-169 | Frames and wait completions keep the timer invariant. |
| AIManagement.Tick | Assets/Scripts/Game/AI/AIManager.cs:68-82 | Every registered agent is ticked exactly once, in registration order. Identities are kept, and so is the timer invariant. |
| AIManagement.HandlersAreGuarded | Assets/Scripts/Game/AI/AIManager.cs:159-387 | Every handler is a no-op for an agent in another state. |
| AIManagement.RawExitSetsCycle | Assets/Scripts/Game/AI/AIManager.cs:195-209 | The agent leaves raw storage iff it is full, its progress settled, or 15 s passed. The cycle target is the number gained on a full or settled exit, and max(1, gained) on a timeout. Staying keeps the target, and re-arms the 2 s wait exactly when waiting with nothing gained. |
| AIManagement.ProcessingExit | Assets/Scripts/Game/AI/AIManager.cs:256-268 | Unless the short cut applies, the agent leaves processing iff the inventory is empty, progress settled at the target while NOT waiting, or 15 s passed. Staying re-arms the 2 s wait exactly when waiting and short of the target. |
| AIManagement.ProcessedExit | Assets/Scripts/Game/AI/AIManager.cs:307-334 | The agent returns to raw iff both the processed storage and the inventory are empty. Otherwise it goes to trash iff there is a partial batch, a full inventory, settled progress while waiting, or a 15 s timeout. Staying re-arms the wait while short of the target. |
| AIManagement.TrashExit | Assets/Scripts/Game/AI/AIManager.cs:374-386 | The agent returns to raw iff the inventory is empty, disposal settled at the target while waiting, or 15 s passed. Staying re-arms the wait while short of the target. |
| AIManagement.CycleTargetChangesOnlyAtRawExitOrPartialBatch | Assets/Scripts/Game/AI/AIManager.cs:314-320 | The cycle target changes only on leaving raw storage, or by the partial-batch rule at processed, which sets it to the number collected. |
| AIManagement.EmptyProcessedShortCut | Assets/Scripts/Game/AI/AIManager.cs:249-254 | With an empty processed storage, an agent that arrived at processing empty-handed, or holds nothing at processed, heads straight back to raw. |
| AIManagement.SettledProgressAdvances | Assets/Scripts/Game/AI/AIManager.cs:256-260 | Progress that reached its target and stopped changing moves the agent on. The waiting flag is required as written: NOT waiting at processing, waiting elsewhere. |
| AIManagement.ChangingDeltaHoldsAgentAtRaw | Assets/Scripts/Game/AI/AIManager.cs:187-196 | While the gained count keeps changing and the inventory is not full, the agent stays at raw with the wait timer reset. |
| AIManagement.ProcessingTimeoutKeepsCycle | Assets/Scripts/Game/AI/AIManager.cs:261-264 | The processing timeout moves the agent on without touching the cycle target. |
| AIManagement.StuckDetectionKeepsState | Assets/Scripts/Game/AI/AIManager.cs:84-123 | Stuck detection never changes the state, and keeps its timer below 5 s and at zero when not travelling. |
| AIManagement.StalledAgentIsRetargeted | Assets/Scripts/Game/AI/AIManager.cs:102-110 | A traveller stalled for the whole 5 s is re-sent to its station within that tick. |
| AIManagement.WaitingTickAdvancesTimer | Assets/Scripts/Game/AI/AIManager.cs:184-192 | With unchanged progress, a waiting agent either leaves or stays waiting with the timer one tick further. |
| AIManagement.WaitingWithoutProgressLeaves | Assets/Scripts/Game/AI/AIManager.cs:201-205 | If the agent is still waiting at every tick, with no wait end and no frame cancelling the wait in between, and every tick sees the same counts, it leaves the station within the remaining 15 s of its wait timer. |
| EventBus.GapFactorValue | Assets/Scripts/Events/EventBus.cs:8 | long.MaxValue / int.MaxValue / 2 is 2147483649. |
| EventBus.BaseKeyFitsInLong | Assets/Scripts/Events/EventBus.cs:65 | order × GapFactor never overflows a long for any int order. |
| EventBus.Probe | Assets/Scripts/Events/EventBus.cs:67-73 | The probe stops at the least free key at or above the base key. |
| EventBus.Insert | Assets/Scripts/Events/EventBus.cs:80 | Adding a fresh key keeps the table sorted and adds exactly that entry. |
| EventBus.FirstIndexOf | Assets/Scripts/Events/EventBus.cs:31-38 | The position of the first entry holding the handler, or the length when there is none. |
| EventBus.RemoveFirst | Assets/Scripts/Events/EventBus.cs:31-38 | At most one entry, the first one holding the handler, is removed; the order is kept. |
| EventBus.Subscribe | Assets/Scripts/Events/EventBus.cs:61-81 | Null is ignored. The handler gets the least free key ≥ order × GapFactor in its type's table, creating the table if needed. Other types are untouched. |
| EventBus.UnSubscribe | Assets/Scripts/Events/EventBus.cs:25-44 | At most one entry holding the handler is removed, and a table left empty is dropped. Null and unknown types are ignored. Other types are untouched. |
| EventBus.RemoveAllListeners | Assets/Scripts/Events/EventBus.cs:122-130 | The type disappears from the bus; other types are untouched. |
| EventBus.Apply | Assets/Scripts/Events/EventBus.cs:25-130 | Every bus operation keeps the tables non-empty and sorted. |
| EventBus.RunOp | Assets/Scripts/Events/EventBus.cs:97-110 | A handler's operation keeps the bus well formed. |
| EventBus.RunOps | Assets/Scripts/Events/EventBus.cs:97-110 | A handler's operations keep the bus well formed; an empty list of operations changes nothing. |
| EventBus.Dispatch | Assets/Scripts/Events/EventBus.cs:97-110 | Only snapshot entries are invoked, each at most once, in ascending key order. An entry already gone from the captured dictionary is skipped; an entry still in it at its turn is invoked first. |
| EventBus.Publish | Assets/Scripts/Events/EventBus.cs:84-112 | An unknown type invokes nothing. Otherwise only entries present at the start are invoked, in ascending key order, and the entry with the lowest key is always invoked first. |
| EventBus.KeysDistinct | Assets/Scripts/Events/EventBus.cs:67-80 | No two entries of a type share a key. |
| EventBus.QuietDispatchInvokesAll | Assets/Scripts/Events/EventBus.cs:97-110 | When handlers leave the bus alone, every snapshot entry is invoked once, in order. |
| EventBus.QuietPublishInvokesAll | Assets/Scripts/Events/EventBus.cs:84-112 | Then Publish invokes exactly the type's subscribers in key order and leaves the bus unchanged. |
| EventBus.RunOpKeepsHandlers | Assets/Scripts/Events/EventBus.cs:101-107 | A bus operation other than unsubscribing from the published type keeps every handler of the captured dictionary in it. |
| EventBus.RunOpsKeepHandlers | Assets/Scripts/Events/EventBus.cs:101-107 | The same for all the operations one handler performs. |
| EventBus.DispatchWithoutUnsubscribeInvokesAll | Assets/Scripts/Events/EventBus.cs:97-110 | When no handler unsubscribes from the published type, every snapshot entry registered at the start is invoked, in order, whatever else the handlers do to the bus. |
| EventBus.PublishWithoutUnsubscribeInvokesAll | Assets/Scripts/Events/EventBus.cs:84-112 | Handlers may subscribe and clear types while Publish runs: if none unsubscribes from the published type, Publish invokes exactly the subscribers present at the start, in key order. |
| EventBus.UnregisteredHandlerSkipped | Assets/Scripts/Events/EventBus.cs:101-107 | A handler no longer in the dictionary by its turn is skipped. |
| EventBus.UnsubscribeDuringDispatch | Assets/Scripts/Events/EventBus.cs:97-110 | A handler that unsubscribes the next one during Publish stops it from running. |
| EventBus.SameOrderProbesToNextKey | Assets/Scripts/Events/EventBus.cs:65-73 | Two subscriptions with the same order get consecutive keys, in subscription order. |
| World.ApplyCommand | Assets/Scripts/Game/Storage/CharacterStorageInteraction.cs:80-90 | No command leaves the spawner alone. Stop leaves it inactive. Start with room leaves it active. |
| World.InitialWorld | Assets/Scripts/Game/AI/AIManager.cs:39-51 | After every Start has run, the spawner is active with its first raw item already stored, and every agent is registered once, with a distinct id and its own empty inventory. |
| World.InitialWorldInv | Assets/Scripts/Game/Common/RawSpawner.cs:43-56 | The world after Start, in which StartSpawning has run its first spawn step, satisfies the world invariant when the raw and processed definitions are typed. |
| World.SpawnerKeepsRaw | Assets/Scripts/Game/Common/RawSpawner.cs:49-90 | Spawner operations keep the raw storage bounded and type-locked. |
| World.TransferKeepsWorldInv | Assets/Scripts/Game/Storage/CharacterStorageInteraction.cs:95-172 | A transfer between any agent and any station keeps the world invariant; the trash stays empty. |
| World.AreaCheckKeepsWorldInv | Assets/Scripts/Game/Storage/CharacterStorageInteraction.cs:63-93 | An area check, and the start or stop it issues, keep the world invariant. |
| World.TransformerKeepsWorldInv | Assets/Scripts/Game/Common/AssetTransformer.cs:63-166 | Every transformer event keeps the world invariant. |
| World.SettleKeepsWorldInv | Assets/Scripts/Utilities/AnimationUtils.cs:25-29 | Settling an item anywhere keeps the world invariant. |
| World.AgentEventsKeepWorldInv | Assets/Scripts/Game/AI/AIManager.cs:68-82 | Agent frames, wait completions and ticks keep the world invariant. |
| World.StepKeepsWorldInv | Assets/Scripts/Game/Common/RawSpawner.cs:34-56 | Every event keeps the world invariant, including a spawner start delivered through the RawSpawnerStartEvent subscription. |
| World.RunKeepsWorldInv | Assets/Scripts/Game/Storage/CharacterStorageInteraction.cs:55-61 | Any run of events, such as the one Transfer per definition of ProcessAllTransfers, keeps the world invariant: every inventory holds at most 50 items of a single type, raw and processing storages are bounded and type-locked, and the trash is empty. |

## Left out

- Sound, animator switching, UI (coins display, text pop), dependency
  injection and the player's input and movement: presentation and wiring.
- Float positions and the grid's float spacing: only the integer cell of
  `CalculateGridPosition` is modelled; distances and overlaps are inputs.
- `FindAllNearestStorages` / `FindNearestStorage` and the 0.1 s timers of
  `CharacterStorageInteraction`: physics queries, supplied as the nearest
  storage per transfer and as the `hit` flag.
- `ProcessAllTransfers`: it is `ProcessTransfer` applied to each definition in
  list order, which the `World` module expresses as a sequence of `Transfer`
  events.
- `ProcessedStorage.cs` is not part of this model. If it overrides
  `TryRemoveItem` or `PositionItem`, the processed storage differs from the
  pushing storage modelled here.
- Station points are assumed assigned and the processed storage's presence
  is the `processedFound` input. Destroyed agents (the `ai is null` skip) are
  not modelled.
- The `_lastPositions` bookkeeping of stuck detection is folded into the
  `stalled` input.
- Returning trashed items to the pool and counting coin events are not
  tracked in the `World` module: the trashed item leaves the world at
  hand-over (`TrashStaysEmpty` states the disposal itself).
- EventBus.UnSubscribe: removes the first matching entry in key order. The
  source removes the first match in its dictionary's enumeration order,
  which the language does not specify; with a handler subscribed once the two
  agree.
- EventBus.Publish: handlers may subscribe and unsubscribe during Publish,
  but not publish again (no nested Publish); event payloads and the
  typed/untyped handler split are not modelled.
- EventBus.Probe: the key probe is not bounded by long.MaxValue. Only the base
  key is proved to fit (`BaseKeyFitsInLong`); a probe past the top would need
  2^31 subscribers of one type.
- WaitingWithoutProgressLeaves: the 15 s bound is proved only while the agent
  is still waiting at every tick. The source gives no unconditional bound:
  its wait timer advances only on ticks that see the agent waiting, and a
  `WaitAtLocation` that ends is not always restarted.
- EventBus.Dispatch: when handlers unsubscribe from the published type, only
  the invocation of the first still-registered entry and the skip rule are
  stated; the full invocation list is characterised only when no handler
  unsubscribes from that type.
- The player's inventory and the player's transfers are not part of the
  `World` module: it holds the agents' inventories only. The player runs the
  same `CharacterStorageInteraction` code, whose transfers and area checks
  are modelled on their own in `StorageInteraction`.
- AssetTransforming.DeliveryCompleted: the processed storage is not claimed
  bounded, because deliveries are pushed unchecked
  (`OverlappingDeliveriesOverfillOutput`); `World` keeps only "every item is
  typed" there.
- `ItemSO`, `TransferDefinitionSO`, `TransferDefinitionListSO`: configuration
  assets; a definition is its direction and item type, and the list is the
  sequence of `Transfer` events.
