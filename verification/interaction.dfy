/**
 * Game/Storage/CharacterStorageInteraction.cs: the guarded one-item move
 * between two storages, the per-definition direction dispatch, and the raw
 * storage area check that starts and stops the spawner. The nearest-storage
 * search and the overlap test are physics queries, supplied as inputs.
 */
module StorageInteraction {
  import opened Wrappers
  import opened Items
  import opened Storages

  datatype TransferDirection = FromStorageToCharacter | FromCharacterToStorage

  /** A transfer definition: direction and item type (the layer mask selects `nearest`). */
  datatype TransferDefinition = TransferDefinition(direction: TransferDirection, itemType: ItemType)

  /** Source and destination after a transfer attempt (None stands for a null reference). */
  datatype Moved = Moved(source: Option<Storage>, destination: Option<Storage>)

  /** The guards TransferBetweenStorages checks before removing anything. */
  predicate TransferAllowed(source: Option<Storage>, destination: Option<Storage>, t: ItemType) {
    && source.Some? && destination.Some?
    && CanRemoveItem(source.value) && CanAddItem(destination.value)
    && (var top := source.value.items[|source.value.items| - 1];
        top.itemType == t && top.placed)
    && (destination.value.kind == CharacterStore ==> CanCarryItemType(destination.value, t))
  }

  /**
   * TransferBetweenStorages: move the source's top item to the destination,
   * clearing its placed flag; if the destination refuses it, try to put it
   * back on the source.
   */
  function TransferBetweenStorages(source: Option<Storage>, destination: Option<Storage>, t: ItemType): (r: Moved)
    ensures !TransferAllowed(source, destination, t) ==> r == Moved(source, destination)
    ensures TransferAllowed(source, destination, t) ==>
              var s := source.value;
              var top := s.items[|s.items| - 1];
              var add := TryAddItem(destination.value, Some(SetPlaced(top, false)));
              && r.destination == Some(add.store)
              && (add.outcome.Accepted? ==> r.source == Some(TryRemoveItem(s).store))
              && (add.outcome.Rejected? ==>
                    r.source == Some(TryAddItem(TryRemoveItem(s).store, Some(SetPlaced(top, false))).store))
    ensures r.source.Some? == source.Some? && r.destination.Some? == destination.Some?
    ensures source.Some? ==> r.source.value.kind == source.value.kind && r.source.value.capacity == source.value.capacity
                             && r.source.value.hasHolder == source.value.hasHolder
    ensures destination.Some? ==>
              r.destination.value.kind == destination.value.kind
              && r.destination.value.capacity == destination.value.capacity
              && r.destination.value.hasHolder == destination.value.hasHolder
  {
    if source.None? || destination.None? then Moved(source, destination)
    else
      var src := source.value;
      var dst := destination.value;
      if !CanRemoveItem(src) || !CanAddItem(dst) then Moved(source, destination)
      else
        var top := PeekItem(src);
        if top.None? || top.value.itemType != t || !top.value.placed then Moved(source, destination)
        else if dst.kind == CharacterStore && !CanCarryItemType(dst, t) then Moved(source, destination)
        else
          var taken := TryRemoveItem(src);
          match taken.item
          case None => Moved(source, destination)
          case Some(item) =>
            var moving := SetPlaced(item, false);
            var added := TryAddItem(dst, Some(moving));
            if added.outcome.Accepted? then Moved(Some(taken.store), Some(added.store))
            else Moved(Some(TryAddItem(taken.store, Some(moving)).store), Some(added.store))
  }

  /**
   * ProcessTransfer: with a nearest storage for the definition's layer, move
   * storage -> character for FromStorageToCharacter and character -> storage
   * otherwise. Returns (nearest storage, character storage).
   */
  function ProcessTransfer(def: TransferDefinition, nearest: Option<Storage>, character: Storage): (r: (Option<Storage>, Storage))
    ensures nearest.None? ==> r == (nearest, character)
    ensures nearest.Some? && def.direction == FromStorageToCharacter ==>
              var m := TransferBetweenStorages(nearest, Some(character), def.itemType);
              r == (m.source, m.destination.value)
    ensures nearest.Some? && def.direction == FromCharacterToStorage ==>
              var m := TransferBetweenStorages(Some(character), nearest, def.itemType);
              r == (m.destination, m.source.value)
  {
    if nearest.None? then (nearest, character)
    else if def.direction == FromStorageToCharacter then
      var m := TransferBetweenStorages(nearest, Some(character), def.itemType);
      (m.source, m.destination.value)
    else
      var m := TransferBetweenStorages(Some(character), nearest, def.itemType);
      (m.destination, m.source.value)
  }

  datatype SpawnerCommand = NoCommand | StopSpawner | StartSpawner

  datatype AreaStatus = AreaStatus(inRawArea: bool, command: SpawnerCommand)

  /**
   * CheckRawStorageAreaStatus (once its 0.1 s timer has elapsed): `hit` is the
   * overlap test against the raw storage layer.
   */
  function CheckRawStorageAreaStatus(wasInRawArea: bool, hit: bool, characterCanAdd: bool): (r: AreaStatus)
    ensures r.inRawArea == hit
    ensures r.command == StopSpawner <==> !wasInRawArea && hit && characterCanAdd
    ensures r.command == StartSpawner <==> wasInRawArea && !hit
  {
    if hit then
      AreaStatus(true, if !wasInRawArea && characterCanAdd then StopSpawner else NoCommand)
    else
      AreaStatus(false, if wasInRawArea then StartSpawner else NoCommand)
  }

  // ---------------------------------------------------------------------------
  // Properties
  // ---------------------------------------------------------------------------

  /** On a successful move exactly the top item leaves the source and lands, unplaced, on a pushing destination. */
  lemma TransferMovesTopItem(src: Storage, dst: Storage, t: ItemType)
    requires TransferAllowed(Some(src), Some(dst), t)
    requires TypeLock(dst) && Pushes(dst)
    requires |dst.items| == 0 || dst.currentType == t
    ensures var r := TransferBetweenStorages(Some(src), Some(dst), t);
            var top := src.items[|src.items| - 1];
            && r.source.value.items == src.items[..|src.items| - 1]
            && r.destination.value.items == dst.items + [SetPlaced(top, false)]
  {
  }

  /**
   * A rejected move puts the item back on a pushing, type-locked source: the
   * item count across both storages is preserved in every case.
   */
  lemma TransferPreservesTotalCount(src: Storage, dst: Storage, t: ItemType)
    requires Bounded(src) && TypeLock(src) && Pushes(src) && Pushes(dst)
    ensures var r := TransferBetweenStorages(Some(src), Some(dst), t);
            Count(r.source.value) + Count(r.destination.value) == Count(src) + Count(dst)
  {
    var r := TransferBetweenStorages(Some(src), Some(dst), t);
    if TransferAllowed(Some(src), Some(dst), t) {
      var top := src.items[|src.items| - 1];
      var moving := SetPlaced(top, false);
      var taken := TryRemoveItem(src);
      assert top.itemType == src.currentType;
      var back := TryAddItem(taken.store, Some(moving));
      if |taken.store.items| > 0 {
        assert taken.store.currentType == src.currentType;
      }
      assert back.outcome.Accepted?;
    }
  }

  /**
   * A move between storages holding typed items keeps each side within
   * capacity and type-locked if it was, whatever the other side is.
   */
  lemma TransferKeepsInvariants(src: Storage, dst: Storage, t: ItemType)
    requires AllTyped(src) && AllTyped(dst)
    ensures var r := TransferBetweenStorages(Some(src), Some(dst), t);
            && AllTyped(r.source.value) && AllTyped(r.destination.value)
            && (Bounded(src) && TypeLock(src) ==> Bounded(r.source.value) && TypeLock(r.source.value))
            && (Bounded(dst) && TypeLock(dst) ==> Bounded(r.destination.value) && TypeLock(r.destination.value))
  {
    if TransferAllowed(Some(src), Some(dst), t) {
      var top := src.items[|src.items| - 1];
      var moving := SetPlaced(top, false);
      var taken := TryRemoveItem(src);
      assert moving.itemType != NoType;
      OperationsKeepAllTyped(src, moving, 0);
      OperationsKeepAllTyped(dst, moving, 0);
      OperationsKeepAllTyped(taken.store, moving, 0);
      if Bounded(src) && TypeLock(src) {
        TryRemoveKeepsInvariants(src);
        assert moving.itemType == src.currentType;
        TryAddKeepsInvariants(taken.store, Some(moving));
      }
      if Bounded(dst) && TypeLock(dst) {
        TryAddKeepsInvariants(dst, Some(moving));
      }
    }
  }

  /** ProcessTransfer keeps the character storage and the nearest storage as TransferBetweenStorages does. */
  lemma ProcessTransferKeepsInvariants(def: TransferDefinition, nearest: Storage, character: Storage)
    requires AllTyped(nearest) && AllTyped(character)
    ensures var r := ProcessTransfer(def, Some(nearest), character);
            && r.0.Some? && AllTyped(r.0.value) && AllTyped(r.1)
            && (Bounded(nearest) && TypeLock(nearest) ==> Bounded(r.0.value) && TypeLock(r.0.value))
            && (Bounded(character) && TypeLock(character) ==> Bounded(r.1) && TypeLock(r.1))
            && r.0.value.kind == nearest.kind && r.0.value.capacity == nearest.capacity
            && r.1.kind == character.kind && r.1.capacity == character.capacity
  {
    if def.direction == FromStorageToCharacter {
      TransferKeepsInvariants(nearest, character, def.itemType);
    } else {
      TransferKeepsInvariants(character, nearest, def.itemType);
    }
  }

  /** No transfer into a character storage that cannot carry the type. */
  lemma NoTransferIntoIncompatibleCharacter(src: Storage, character: Storage, t: ItemType)
    requires character.kind == CharacterStore && !CanCarryItemType(character, t)
    ensures TransferBetweenStorages(Some(src), Some(character), t) == Moved(Some(src), Some(character))
  {
  }

  /** No transfer of a top item that is still animating or of another type. */
  lemma NoTransferOfUnsettledOrOtherItem(src: Storage, dst: Storage, t: ItemType)
    requires |src.items| > 0
    requires !src.items[|src.items| - 1].placed || src.items[|src.items| - 1].itemType != t
    ensures TransferBetweenStorages(Some(src), Some(dst), t) == Moved(Some(src), Some(dst))
  {
  }
}
