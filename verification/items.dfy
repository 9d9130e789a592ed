/**
 * Items moved through the pipeline (Game/Common/Item.cs). Only the logical
 * state is kept: the item's identity, its type and whether its last
 * move-with-bounce animation has completed. Mesh, material and collider
 * updates are presentation and are not modelled.
 */
module Items {

  /** The three item types, in declaration order. */
  datatype ItemType = NoType | RawType | ProcessedType

  /**
   * An item object. `id` stands for the object's reference identity (two
   * storages holding the "same" item hold the same id).
   */
  datatype Item = Item(id: nat, itemType: ItemType, placed: bool)

  /** A freshly instantiated item (Awake): not placed, type as serialized on the prefab. */
  function FreshItem(id: nat, prefabType: ItemType): (it: Item)
    ensures !it.placed
    ensures it.id == id && it.itemType == prefabType
  {
    Item(id, prefabType, false)
  }

  /** SetPlaced stores exactly the given flag and touches nothing else. */
  function SetPlaced(it: Item, placed: bool): (r: Item)
    ensures r.placed == placed
    ensures r.id == it.id && r.itemType == it.itemType
  {
    it.(placed := placed)
  }

  /**
   * InitializeItem with an item definition whose type is `defType`: the mesh and
   * material branches only change presentation, so whatever they hold, the
   * item's type becomes the definition's type.
   */
  function InitializeItem(it: Item, defType: ItemType): (r: Item)
    ensures r.itemType == defType
    ensures r.id == it.id && r.placed == it.placed
  {
    it.(itemType := defType)
  }

  /** ResetItem (the item pool's return callback): no type and not placed. */
  function ResetItem(it: Item): (r: Item)
    ensures r.itemType == NoType && !r.placed
    ensures r.id == it.id
  {
    Item(it.id, NoType, false)
  }

  /** Setting the placed flag twice keeps only the last value. */
  lemma SetPlacedLastWins(it: Item, a: bool, b: bool)
    ensures SetPlaced(SetPlaced(it, a), b) == SetPlaced(it, b)
  {
  }

  /** Resetting forgets both earlier initialisation and placement. */
  lemma ResetForgetsHistory(it: Item, defType: ItemType, placed: bool)
    ensures ResetItem(SetPlaced(InitializeItem(it, defType), placed)) == ResetItem(it)
  {
  }
}
