/**
 * The type-homogeneous, capacity-bounded LIFO storage (Game/Storage/StorageBase.cs)
 * and its subclasses' PositionItem (RawStorage, ProcessingStorage,
 * CharacterStorage, TrashStorage; ProcessedStorage is not part of this model
 * and is treated as a pushing storage like RawStorage).
 *
 * The stack is a sequence whose LAST element is the top.
 */
module Storages {
  import opened Wrappers
  import opened Items

  /** Every storage subclass sets (or inherits) MaxCapacity = 50. */
  const DefaultCapacity: int := 50

  datatype StorageKind = RawStore | ProcessingStore | ProcessedStore | CharacterStore | TrashStore

  /**
   * A storage: its subclass, whether its item holder transform is assigned,
   * the stack of items, the type lock CurrentItemType and MaxCapacity.
   */
  datatype Storage = Storage(kind: StorageKind, hasHolder: bool, items: seq<Item>,
                             currentType: ItemType, capacity: int)

  /** What PositionItem did with an accepted item. */
  datatype Placement =
    | NotPlaced          // holder missing: nothing pushed, nothing published
    | Stacked(slot: nat) // pushed; `slot` is the grid / stack index of the new item
    | Disposed           // trash: one CoinAmountEvent published, item handed to the pool on completion

  datatype AddOutcome = Rejected | Accepted(placement: Placement)

  datatype Added = Added(store: Storage, outcome: AddOutcome)

  datatype Removed = Removed(store: Storage, item: Option<Item>)

  /** A storage as created by Awake: empty, no type, capacity 50. */
  function NewStorage(kind: StorageKind, hasHolder: bool): (s: Storage)
    ensures s.items == [] && s.currentType == NoType
    ensures s.capacity == 50 && s.kind == kind && s.hasHolder == hasHolder
  {
    Storage(kind, hasHolder, [], NoType, DefaultCapacity)
  }

  function Count(s: Storage): nat {
    |s.items|
  }

  predicate CanAddItem(s: Storage) {
    Count(s) < s.capacity
  }

  predicate CanRemoveItem(s: Storage) {
    Count(s) > 0
  }

  /** Whether PositionItem of this storage pushes accepted items. */
  predicate Pushes(s: Storage) {
    s.hasHolder && s.kind != TrashStore
  }

  /**
   * The storage's type lock: no type exactly when empty, and every stored
   * item has the locked type.
   */
  ghost predicate TypeLock(s: Storage) {
    && (|s.items| == 0 <==> s.currentType == NoType)
    && forall i | 0 <= i < |s.items| :: s.items[i].itemType == s.currentType
  }

  /** Every stored item has a type (weaker than TypeLock: no homogeneity). */
  ghost predicate AllTyped(s: Storage) {
    forall i | 0 <= i < |s.items| :: s.items[i].itemType != NoType
  }

  ghost predicate Bounded(s: Storage) {
    |s.items| <= s.capacity
  }

  /** PeekItem: the top item without mutation, or none when empty. */
  function PeekItem(s: Storage): (r: Option<Item>)
    ensures r.None? <==> |s.items| == 0
    ensures r.Some? ==> r.value == s.items[|s.items| - 1]
  {
    if CanRemoveItem(s) then Some(s.items[|s.items| - 1]) else None
  }

  /**
   * PushItem: unconditional push (no capacity or type check). The first item
   * of an empty stack sets the type lock.
   */
  function PushItem(s: Storage, item: Option<Item>): (r: Storage)
    ensures item.None? ==> r == s
    ensures item.Some? ==> r.items == s.items + [item.value]
    ensures item.Some? && |s.items| == 0 ==> r.currentType == item.value.itemType
    ensures item.Some? && |s.items| > 0 ==> r.currentType == s.currentType
    ensures r.kind == s.kind && r.hasHolder == s.hasHolder && r.capacity == s.capacity
  {
    if item.None? then s
    else
      var s1 := s.(items := s.items + [item.value]);
      if |s1.items| == 1 then s1.(currentType := item.value.itemType) else s1
  }

  /**
   * PositionItem of each subclass. Raw, processing, character (and processed)
   * storages push unless the holder is missing; trash never pushes and, with a
   * holder, publishes one coin event and hands the item back to the pool.
   */
  function PositionItem(s: Storage, item: Item): (r: (Storage, Placement))
    ensures !s.hasHolder ==> r == (s, NotPlaced)
    ensures s.hasHolder && s.kind == TrashStore ==> r == (s, Disposed)
    ensures Pushes(s) ==> r.0.items == s.items + [item] && r.1 == Stacked(|s.items|)
    ensures r.0.kind == s.kind && r.0.hasHolder == s.hasHolder && r.0.capacity == s.capacity
  {
    if !s.hasHolder then (s, NotPlaced)
    else match s.kind
      case TrashStore => (s, Disposed)
      case _ => (PushItem(s, Some(item)), Stacked(|s.items|))
  }

  /** TryAddItem: the guarded add. */
  function TryAddItem(s: Storage, item: Option<Item>): (r: Added)
    ensures r.outcome.Rejected? <==>
              (|s.items| >= s.capacity || item.None?
               || (|s.items| > 0 && s.currentType != NoType && item.value.itemType != s.currentType))
    ensures r.outcome.Rejected? ==> r.store == s
    ensures r.outcome.Accepted? && Pushes(s) ==>
              r.store.items == s.items + [item.value] && r.outcome.placement == Stacked(|s.items|)
    ensures r.outcome.Accepted? && !Pushes(s) ==> r.store.items == s.items
    ensures r.outcome.Accepted? && s.kind == TrashStore && s.hasHolder ==> r.outcome.placement == Disposed
    ensures r.outcome.Accepted? && !s.hasHolder ==> r.outcome.placement == NotPlaced
    ensures r.store.kind == s.kind && r.store.hasHolder == s.hasHolder && r.store.capacity == s.capacity
  {
    if !CanAddItem(s) || item.None? then Added(s, Rejected)
    else if Count(s) > 0 && s.currentType != NoType && item.value.itemType != s.currentType then
      Added(s, Rejected)
    else
      var (s1, placement) := PositionItem(s, item.value);
      var s2 := if Count(s1) == 1 && s1.currentType == NoType then s1.(currentType := item.value.itemType) else s1;
      Added(s2, Accepted(placement))
  }

  /** TryRemoveItem: pops the top; the type lock is released when the stack empties. */
  function TryRemoveItem(s: Storage): (r: Removed)
    ensures |s.items| == 0 ==> r == Removed(s, None)
    ensures |s.items| > 0 ==>
              && r.item == Some(s.items[|s.items| - 1])
              && r.store.items == s.items[..|s.items| - 1]
              && r.store.currentType == (if |s.items| == 1 then NoType else s.currentType)
    ensures r.store.kind == s.kind && r.store.hasHolder == s.hasHolder && r.store.capacity == s.capacity
  {
    if !CanRemoveItem(s) then Removed(s, None)
    else
      var top := s.items[|s.items| - 1];
      var s1 := s.(items := s.items[..|s.items| - 1]);
      var s2 := if Count(s1) == 0 then s1.(currentType := NoType) else s1;
      Removed(s2, Some(top))
  }

  /** CharacterStorage.CanCarryItemType. */
  predicate CanCarryItemType(s: Storage, t: ItemType) {
    if Count(s) == 0 || s.currentType == NoType then true else t == s.currentType
  }

  /** Sets the placed flag of every stored copy of item `id` (an animation completing). */
  function MarkPlaced(s: Storage, id: nat): (r: Storage)
    ensures |r.items| == |s.items|
    ensures forall i | 0 <= i < |s.items| ::
              r.items[i] == (if s.items[i].id == id then SetPlaced(s.items[i], true) else s.items[i])
    ensures r.kind == s.kind && r.hasHolder == s.hasHolder && r.capacity == s.capacity
    ensures r.currentType == s.currentType
  {
    s.(items := seq(|s.items|, i requires 0 <= i < |s.items| =>
         if s.items[i].id == id then SetPlaced(s.items[i], true) else s.items[i]))
  }

  // ---------------------------------------------------------------------------
  // Properties
  // ---------------------------------------------------------------------------

  /** CanAddItem / CanRemoveItem in terms of the stack. */
  lemma GuardsMeaning(s: Storage)
    ensures CanAddItem(s) <==> |s.items| < s.capacity
    ensures CanRemoveItem(s) <==> |s.items| > 0
    ensures PeekItem(s).Some? <==> CanRemoveItem(s)
  {
  }

  /** The guarded path keeps the capacity bound; the type lock too, for typed items. */
  lemma TryAddKeepsInvariants(s: Storage, item: Option<Item>)
    requires Bounded(s) && TypeLock(s)
    requires item.Some? ==> item.value.itemType != NoType
    ensures Bounded(TryAddItem(s, item).store)
    ensures TypeLock(TryAddItem(s, item).store)
  {
    var r := TryAddItem(s, item);
    if r.outcome.Accepted? && Pushes(s) {
      assert r.store.items == s.items + [item.value];
      if |s.items| == 0 {
        assert r.store.currentType == item.value.itemType;
      } else {
        assert r.store.currentType == s.currentType;
        assert item.value.itemType == s.currentType;
      }
    }
  }

  /** Typed items keep a storage's items typed, on every add, push, remove and settle. */
  lemma OperationsKeepAllTyped(s: Storage, item: Item, id: nat)
    requires AllTyped(s) && item.itemType != NoType
    ensures AllTyped(TryAddItem(s, Some(item)).store)
    ensures AllTyped(PushItem(s, Some(item)))
    ensures AllTyped(TryRemoveItem(s).store)
    ensures AllTyped(MarkPlaced(s, id))
  {
  }

  lemma TypeLockImpliesAllTyped(s: Storage)
    requires TypeLock(s)
    ensures AllTyped(s)
  {
  }

  /** Settling an item changes no count and no type. */
  lemma MarkPlacedKeepsInvariants(s: Storage, id: nat)
    requires Bounded(s) && TypeLock(s)
    ensures Bounded(MarkPlaced(s, id)) && TypeLock(MarkPlaced(s, id))
  {
  }

  lemma TryRemoveKeepsInvariants(s: Storage)
    requires Bounded(s) && TypeLock(s)
    ensures Bounded(TryRemoveItem(s).store)
    ensures TypeLock(TryRemoveItem(s).store)
  {
  }

  /**
   * PushItem keeps the type lock when the item carries the stack's type (or the
   * stack is empty) but, unlike TryAddItem, it never checks capacity.
   */
  lemma PushKeepsTypeLock(s: Storage, item: Item)
    requires TypeLock(s)
    requires item.itemType != NoType
    requires |s.items| > 0 ==> item.itemType == s.currentType
    ensures TypeLock(PushItem(s, Some(item)))
  {
  }

  /** PushItem onto a full storage exceeds the capacity. */
  lemma PushIgnoresCapacity(s: Storage, item: Item)
    requires Bounded(s) && !CanAddItem(s)
    ensures !Bounded(PushItem(s, Some(item)))
    ensures TryAddItem(s, Some(item)) == Added(s, Rejected)
  {
  }

  /**
   * TryAddItem does not check that the item has a type: an untyped item
   * unlocks an empty storage, which then accepts items of any type.
   */
  lemma UntypedItemUnlocksStorage()
    ensures var s0 := NewStorage(RawStore, true);
            var s1 := TryAddItem(s0, Some(Item(0, NoType, false)));
            var s2 := TryAddItem(s1.store, Some(Item(1, ProcessedType, false)));
            && s1.outcome.Accepted? && s2.outcome.Accepted?
            && s2.store.items == [Item(0, NoType, false), Item(1, ProcessedType, false)]
            && !TypeLock(s2.store)
  {
    var s0 := NewStorage(RawStore, true);
    var s1 := TryAddItem(s0, Some(Item(0, NoType, false)));
    assert s1.store.items == [Item(0, NoType, false)];
    assert s1.store.currentType == NoType;
  }

  /** A successful add followed by a remove gives back the item and the storage. */
  lemma AddThenRemoveRoundTrip(s: Storage, item: Item)
    requires Pushes(s)
    requires |s.items| == 0 ==> s.currentType == NoType
    requires TryAddItem(s, Some(item)).outcome.Accepted?
    ensures TryRemoveItem(TryAddItem(s, Some(item)).store) == Removed(s, Some(item))
  {
    var a := TryAddItem(s, Some(item)).store;
    assert a.items[..|a.items| - 1] == s.items;
  }

  /** Trash never stores anything: its count stays 0 and its type stays unset. */
  lemma TrashStaysEmpty(s: Storage, item: Option<Item>)
    requires s.kind == TrashStore && |s.items| == 0 && s.currentType == NoType && s.capacity == DefaultCapacity
    ensures TryAddItem(s, item).store == s
    ensures item.Some? ==> TryAddItem(s, item).outcome.Accepted?
    ensures item.Some? && s.hasHolder ==> TryAddItem(s, item).outcome == Accepted(Disposed)
    ensures item.Some? && !s.hasHolder ==> TryAddItem(s, item).outcome == Accepted(NotPlaced)
  {
  }

  /** A storage with a missing holder accepts without storing. */
  lemma MissingHolderAcceptsWithoutPushing(s: Storage, item: Item)
    requires !s.hasHolder && TypeLock(s) && CanAddItem(s)
    requires |s.items| == 0 || item.itemType == s.currentType
    ensures TryAddItem(s, Some(item)) == Added(s, Accepted(NotPlaced))
  {
  }

  /** CanCarryItemType: any type into an empty or untyped inventory, otherwise only the locked type. */
  lemma CanCarryMeaning(s: Storage, t: ItemType)
    ensures (|s.items| == 0 || s.currentType == NoType) ==> CanCarryItemType(s, t)
    ensures |s.items| > 0 && s.currentType != NoType ==> (CanCarryItemType(s, t) <==> t == s.currentType)
  {
  }

  /** For a type-locked storage, CanCarryItemType agrees with TryAddItem's type check. */
  lemma CanCarryMatchesTypeCheck(s: Storage, item: Item)
    requires TypeLock(s) && CanAddItem(s)
    ensures CanCarryItemType(s, item.itemType) <==> TryAddItem(s, Some(item)).outcome.Accepted?
  {
  }
}
