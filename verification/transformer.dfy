/**
 * Game/Common/AssetTransformer.cs: drains the processing storage one item per
 * cycle step, turns each item into the processed type, and delivers it to the
 * processed storage. Several item sequences run at once; each animation
 * completion and each timed wait is an explicit event naming the sequence.
 * The animator on/off switching is presentation and is not modelled.
 */
module AssetTransforming {
  import opened Wrappers
  import opened Items
  import opened Storages

  /** Where an item sequence is: moving to the transform point, or in the 0.2 s transform wait. */
  datatype Phase = MovingToPoint | Transforming

  datatype Sequence = Sequence(item: Item, phase: Phase)

  /**
   * The transformer: _activeTransformCount, the running item sequences, the
   * items animating toward the processed storage (pushed on completion),
   * whether a transform point is assigned and the processed definition's type.
   */
  datatype Transformer = Transformer(activeCount: int, sequences: seq<Sequence>, deliveries: seq<Item>,
                                     hasTransformPoint: bool, processedType: ItemType)

  /** The transformer with its input (processing) and output (processed) storages. */
  datatype Plant = Plant(t: Transformer, input: Storage, output: Storage)

  /** Items accounted for: in the input, in flight, being delivered, or in the output. */
  function Total(p: Plant): nat {
    |p.input.items| + |p.t.sequences| + |p.t.deliveries| + |p.output.items|
  }

  /** The counter tracks the running sequences, and every delivered item has the processed type. */
  ghost predicate PlantInv(p: Plant) {
    && p.t.activeCount == |p.t.sequences|
    && forall i | 0 <= i < |p.t.deliveries| :: p.t.deliveries[i].itemType == p.t.processedType
  }

  /** ProcessItemSequence start: count it, then move to the transform point (or skip the move). */
  function StartSequence(p: Plant, item: Item): (r: Plant)
    ensures r.t.activeCount == p.t.activeCount + 1
    ensures |r.t.sequences| == |p.t.sequences| + 1 && r.t.sequences[..|p.t.sequences|] == p.t.sequences
    ensures r.t.sequences[|p.t.sequences|].item == item
    ensures r.input == p.input && r.output == p.output && r.t.deliveries == p.t.deliveries
    ensures r.t.processedType == p.t.processedType && r.t.hasTransformPoint == p.t.hasTransformPoint
  {
    var phase := if p.t.hasTransformPoint then MovingToPoint else Transforming;
    p.(t := p.t.(activeCount := p.t.activeCount + 1, sequences := p.t.sequences + [Sequence(item, phase)]))
  }

  /**
   * One pass of TransformCycle's loop: nothing while the output is full;
   * otherwise take the input's top item, if any, and start a sequence for it.
   */
  function CycleStep(p: Plant): (r: Plant)
    ensures !CanAddItem(p.output) ==> r == p
    ensures r.output == p.output && r.t.deliveries == p.t.deliveries
    ensures r == p || (|p.input.items| > 0 && CanAddItem(p.output)
                       && r.input.items == p.input.items[..|p.input.items| - 1]
                       && |r.t.sequences| == |p.t.sequences| + 1
                       && r.t.sequences[..|p.t.sequences|] == p.t.sequences
                       && r.t.sequences[|p.t.sequences|].item == p.input.items[|p.input.items| - 1])
    ensures Total(r) == Total(p)
  {
    if !CanAddItem(p.output) then p
    else
      var taken := TryRemoveItem(p.input);
      match taken.item
      case Some(item) => StartSequence(p.(input := taken.store), item)
      case None => p
  }

  /** The move to the transform point completes: the item is placed and the transform wait begins. */
  function MoveCompleted(p: Plant, k: nat): (r: Plant)
    ensures !(k < |p.t.sequences| && p.t.sequences[k].phase == MovingToPoint) ==> r == p
    ensures k < |p.t.sequences| && p.t.sequences[k].phase == MovingToPoint ==>
              r.t.sequences == p.t.sequences[k := Sequence(SetPlaced(p.t.sequences[k].item, true), Transforming)]
    ensures r.input == p.input && r.output == p.output && r.t.deliveries == p.t.deliveries
    ensures r.t.activeCount == p.t.activeCount && r.t.processedType == p.t.processedType
  {
    if k < |p.t.sequences| && p.t.sequences[k].phase == MovingToPoint then
      var s := p.t.sequences[k];
      p.(t := p.t.(sequences := p.t.sequences[k := Sequence(SetPlaced(s.item, true), Transforming)]))
    else p
  }

  /** TransformItem: the item takes the processed definition's type. */
  function TransformItem(t: Transformer, item: Item): (r: Item)
    ensures r.itemType == t.processedType && r.id == item.id
  {
    InitializeItem(item, t.processedType)
  }

  /**
   * TransferItemToTargetStorage: start the move into the output if it has room
   * right now, otherwise offer the item back to the input.
   */
  function TransferItemToTargetStorage(p: Plant, item: Item): (r: Plant)
    ensures CanAddItem(p.output) ==> r == p.(t := p.t.(deliveries := p.t.deliveries + [item]))
    ensures !CanAddItem(p.output) ==> r == p.(input := TryAddItem(p.input, Some(item)).store)
  {
    if CanAddItem(p.output) then p.(t := p.t.(deliveries := p.t.deliveries + [item]))
    else p.(input := TryAddItem(p.input, Some(item)).store)
  }

  /** The transform wait of sequence k ends: transform, hand over, and count the sequence out. */
  function TransformCompleted(p: Plant, k: nat): (r: Plant)
    ensures !(k < |p.t.sequences| && p.t.sequences[k].phase == Transforming) ==> r == p
    ensures k < |p.t.sequences| && p.t.sequences[k].phase == Transforming ==>
              && r.t.activeCount == p.t.activeCount - 1
              && r.t.sequences == p.t.sequences[..k] + p.t.sequences[k + 1..]
              && r.output == p.output
              && (CanAddItem(p.output) ==>
                    r.t.deliveries == p.t.deliveries + [TransformItem(p.t, p.t.sequences[k].item)] && r.input == p.input)
              && (!CanAddItem(p.output) ==>
                    r.t.deliveries == p.t.deliveries
                    && r.input == TryAddItem(p.input, Some(TransformItem(p.t, p.t.sequences[k].item))).store)
  {
    if k < |p.t.sequences| && p.t.sequences[k].phase == Transforming then
      var item := TransformItem(p.t, p.t.sequences[k].item);
      var rest := p.(t := p.t.(sequences := p.t.sequences[..k] + p.t.sequences[k + 1..]));
      var handed := TransferItemToTargetStorage(rest, item);
      handed.(t := handed.t.(activeCount := handed.t.activeCount - 1))
    else p
  }

  /** The move into the output completes: the item is placed and pushed without a capacity check. */
  function DeliveryCompleted(p: Plant, k: nat): (r: Plant)
    ensures k >= |p.t.deliveries| ==> r == p
    ensures k < |p.t.deliveries| ==>
              && r.output == PushItem(p.output, Some(SetPlaced(p.t.deliveries[k], true)))
              && r.t.deliveries == p.t.deliveries[..k] + p.t.deliveries[k + 1..]
              && r.input == p.input && r.t.sequences == p.t.sequences
    ensures Total(r) == Total(p)
  {
    if k < |p.t.deliveries| then
      var item := SetPlaced(p.t.deliveries[k], true);
      p.(t := p.t.(deliveries := p.t.deliveries[..k] + p.t.deliveries[k + 1..]),
         output := PushItem(p.output, Some(item)))
    else p
  }

  // ---------------------------------------------------------------------------
  // Properties
  // ---------------------------------------------------------------------------

  /** A fresh transformer: no sequences, no deliveries, counter zero. */
  lemma InitialPlantInv(input: Storage, output: Storage, hasPoint: bool, processedType: ItemType)
    ensures PlantInv(Plant(Transformer(0, [], [], hasPoint, processedType), input, output))
  {
  }

  /** Every event keeps the counter equal to the running sequences and deliveries typed. */
  lemma EventsKeepPlantInv(p: Plant, k: nat)
    requires PlantInv(p)
    ensures PlantInv(CycleStep(p))
    ensures PlantInv(MoveCompleted(p, k))
    ensures PlantInv(TransformCompleted(p, k))
    ensures PlantInv(DeliveryCompleted(p, k))
  {
    var r := DeliveryCompleted(p, k);
    if k < |p.t.deliveries| {
      forall i | 0 <= i < |r.t.deliveries|
        ensures r.t.deliveries[i].itemType == r.t.processedType
      {
        if i < k { assert r.t.deliveries[i] == p.t.deliveries[i]; }
        else { assert r.t.deliveries[i] == p.t.deliveries[i + 1]; }
      }
    }
  }

  /** The input stays within capacity and type-locked, for a typed processed definition. */
  lemma EventsKeepInputInvariants(p: Plant, k: nat)
    requires Bounded(p.input) && TypeLock(p.input) && p.t.processedType != NoType
    ensures Bounded(CycleStep(p).input) && TypeLock(CycleStep(p).input)
    ensures Bounded(TransformCompleted(p, k).input) && TypeLock(TransformCompleted(p, k).input)
  {
    TryRemoveKeepsInvariants(p.input);
    if k < |p.t.sequences| && p.t.sequences[k].phase == Transforming {
      TryAddKeepsInvariants(p.input, Some(TransformItem(p.t, p.t.sequences[k].item)));
    }
  }

  /** A handed-over item is accounted for unless the input refuses it back. */
  lemma TransformCompletedAccounting(p: Plant, k: nat)
    requires k < |p.t.sequences| && p.t.sequences[k].phase == Transforming
    ensures CanAddItem(p.output) ==> Total(TransformCompleted(p, k)) == Total(p)
    ensures !CanAddItem(p.output) && Pushes(p.input)
            && TryAddItem(p.input, Some(TransformItem(p.t, p.t.sequences[k].item))).outcome.Accepted?
            ==> Total(TransformCompleted(p, k)) == Total(p)
  {
  }

  /**
   * When the output is full at hand-over time and the input holds items of
   * another type, the input refuses the processed item and it is dropped:
   * it is in no storage, no sequence and no delivery.
   */
  lemma FallbackDropsItemOnTypeClash(p: Plant, k: nat)
    requires k < |p.t.sequences| && p.t.sequences[k].phase == Transforming
    requires !CanAddItem(p.output)
    requires TypeLock(p.input) && |p.input.items| > 0 && p.input.currentType != p.t.processedType
    ensures TransformCompleted(p, k).input == p.input
    ensures Total(TransformCompleted(p, k)) == Total(p) - 1
  {
  }

  /**
   * The capacity check happens at hand-over time and the push at animation
   * completion, so two overlapping deliveries overfill a processed storage
   * that had one free slot.
   */
  lemma OverlappingDeliveriesOverfillOutput(p: Plant)
    requires |p.t.sequences| == 2 && p.t.sequences[0].phase == Transforming && p.t.sequences[1].phase == Transforming
    requires p.t.deliveries == []
    requires |p.output.items| == p.output.capacity - 1
    ensures var p1 := TransformCompleted(TransformCompleted(p, 0), 0);
            var p2 := DeliveryCompleted(DeliveryCompleted(p1, 0), 0);
            |p2.output.items| == p.output.capacity + 1
  {
    var p1a := TransformCompleted(p, 0);
    assert p1a.output == p.output;
    assert p1a.t.sequences[0].phase == Transforming;
    var p1 := TransformCompleted(p1a, 0);
    assert |p1.t.deliveries| == 2;
    var p2a := DeliveryCompleted(p1, 0);
    assert |p2a.t.deliveries| == 1;
  }
}
