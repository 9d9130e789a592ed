/**
 * Pool/ObjectPool.cs: a FIFO queue of reusable objects. Instantiating a new
 * object is modelled by `make(n)`, where n counts the objects created so far,
 * so every created object is distinct. Activation and re-parenting of the
 * game object are not modelled.
 */
module ObjectPools {
  import opened Wrappers

  datatype Pool<T> = Pool(queue: seq<T>, created: nat)

  /** The constructor: `initialSize` fresh objects, enqueued in creation order. */
  function NewPool<T>(initialSize: nat, make: nat -> T): (p: Pool<T>)
    ensures |p.queue| == initialSize && p.created == initialSize
    ensures forall i | 0 <= i < initialSize :: p.queue[i] == make(i)
  {
    Pool(seq(initialSize, (i: nat) => make(i)), initialSize)
  }

  /**
   * Get: the oldest pooled object when there is one, otherwise a freshly created
   * one. The get callback is null for the item pool and is not modelled.
   */
  function Get<T>(p: Pool<T>, make: nat -> T): (r: (T, Pool<T>))
    ensures |p.queue| > 0 ==> r.0 == p.queue[0] && r.1 == Pool(p.queue[1..], p.created)
    ensures |p.queue| == 0 ==> r.0 == make(p.created) && r.1 == Pool([], p.created + 1)
  {
    if |p.queue| > 0 then (p.queue[0], p.(queue := p.queue[1..]))
    else (make(p.created), p.(created := p.created + 1))
  }

  /** Return: null is ignored; otherwise the return callback runs and the object goes to the back. */
  function Return<T>(p: Pool<T>, obj: Option<T>, onReturn: T -> T): (r: Pool<T>)
    ensures obj.None? ==> r == p
    ensures obj.Some? ==> r.queue == p.queue + [onReturn(obj.value)] && r.created == p.created
  {
    if obj.None? then p else p.(queue := p.queue + [onReturn(obj.value)])
  }

  /** Returns every object of `xs`, in order. */
  function ReturnAll<T>(p: Pool<T>, xs: seq<T>, onReturn: T -> T): (r: Pool<T>)
    ensures r.created == p.created && |r.queue| == |p.queue| + |xs|
    decreases |xs|
  {
    if |xs| == 0 then p else ReturnAll(Return(p, Some(xs[0]), onReturn), xs[1..], onReturn)
  }

  /** Gets `n` objects, in order. */
  function GetMany<T>(p: Pool<T>, n: nat, make: nat -> T): (r: (seq<T>, Pool<T>))
    ensures |r.0| == n
    decreases n
  {
    if n == 0 then ([], p)
    else
      var (x, p1) := Get(p, make);
      var (ys, p2) := GetMany(p1, n - 1, make);
      ([x] + ys, p2)
  }

  /** The objects `xs` as they are after the return callback. */
  function Returned<T>(xs: seq<T>, onReturn: T -> T): (ys: seq<T>)
    ensures |ys| == |xs| && forall i | 0 <= i < |xs| :: ys[i] == onReturn(xs[i])
  {
    seq(|xs|, i requires 0 <= i < |xs| => onReturn(xs[i]))
  }

  /** Returning a batch queues it, after the return callback, behind the objects already pooled. */
  lemma {:induction false} ReturnAllQueuesAtBack<T>(p: Pool<T>, xs: seq<T>, onReturn: T -> T)
    ensures ReturnAll(p, xs, onReturn) == Pool(p.queue + Returned(xs, onReturn), p.created)
    decreases |xs|
  {
    if |xs| > 0 {
      var p1 := Return(p, Some(xs[0]), onReturn);
      ReturnAllQueuesAtBack(p1, xs[1..], onReturn);
      assert p1.queue + Returned(xs[1..], onReturn) == p.queue + Returned(xs, onReturn);
    }
  }

  /** Getting no more objects than are pooled takes them from the front, in order, creating none. */
  lemma {:induction false} GetManyTakesFront<T>(p: Pool<T>, n: nat, make: nat -> T)
    requires n <= |p.queue|
    ensures GetMany(p, n, make) == (p.queue[..n], Pool(p.queue[n..], p.created))
    decreases n
  {
    if n > 0 {
      var p1 := Pool(p.queue[1..], p.created);
      GetManyTakesFront(p1, n - 1, make);
      assert [p.queue[0]] + p1.queue[..n - 1] == p.queue[..n];
      assert p1.queue[n - 1..] == p.queue[n..];
    }
  }

  /**
   * FIFO reuse: after returning `xs` to any pool, getting as many objects as
   * are then pooled hands out the previously pooled objects first and then
   * `xs` in the order returned, creating nothing and leaving the pool empty.
   */
  lemma {:induction false} ReuseIsFifo<T>(p: Pool<T>, xs: seq<T>, onReturn: T -> T, make: nat -> T)
    ensures GetMany(ReturnAll(p, xs, onReturn), |p.queue| + |xs|, make)
            == (p.queue + Returned(xs, onReturn), Pool([], p.created))
  {
    var q := ReturnAll(p, xs, onReturn);
    var n := |p.queue| + |xs|;
    ReturnAllQueuesAtBack(p, xs, onReturn);
    assert q.queue == p.queue + Returned(xs, onReturn) && q.created == p.created;
    GetManyTakesFront(q, n, make);
    assert q.queue[..n] == q.queue && q.queue[n..] == [];
  }

  /** Returning an object and getting one back from an empty pool gives that object, without creating. */
  lemma ReturnThenGet<T>(p: Pool<T>, a: T, onReturn: T -> T, make: nat -> T)
    requires |p.queue| == 0
    ensures Get(Return(p, Some(a), onReturn), make) == (onReturn(a), p)
  {
    assert Return(p, Some(a), onReturn).queue[1..] == [];
  }
}

/**
 * Pool/ItemPool.cs: an ObjectPool of items, pre-filled with 60, whose return
 * callback is ResetItem.
 */
module ItemPools {
  import opened Wrappers
  import opened Items
  import opened ObjectPools

  const InitializePoolSize: nat := 60

  /** The item pool: the object pool and the type serialized on the item prefab. */
  datatype ItemPool = ItemPool(objects: Pool<Item>, prefabType: ItemType)

  /** Instantiating the prefab: a new identity, the prefab's type, not placed. */
  function MakeItem(prefabType: ItemType): nat -> Item {
    (n: nat) => FreshItem(n, prefabType)
  }

  /** Every pooled item is not placed and is either untouched (prefab type) or reset (no type). */
  ghost predicate PoolInv(ip: ItemPool) {
    forall i | 0 <= i < |ip.objects.queue| ::
      !ip.objects.queue[i].placed
      && ip.objects.queue[i].itemType in {NoType, ip.prefabType}
  }

  /** Awake: 60 fresh items. */
  function NewItemPool(prefabType: ItemType): (ip: ItemPool)
    ensures |ip.objects.queue| == 60 && ip.objects.created == 60
    ensures PoolInv(ip)
  {
    ItemPool(NewPool(InitializePoolSize, MakeItem(prefabType)), prefabType)
  }

  /** ReturnItem: null is ignored; otherwise the item is reset and queued. */
  function ReturnItem(ip: ItemPool, item: Option<Item>): (r: ItemPool)
    ensures item.None? ==> r == ip
    ensures item.Some? ==>
              && r.objects.queue == ip.objects.queue + [ResetItem(item.value)]
              && r.objects.queue[|r.objects.queue| - 1].itemType == NoType
              && !r.objects.queue[|r.objects.queue| - 1].placed
    ensures PoolInv(ip) ==> PoolInv(r)
  {
    ItemPool(Return(ip.objects, item, ResetItem), ip.prefabType)
  }

  /**
   * SpawnItem: takes an item from the pool and initialises it with the
   * definition's type. ObjectPool.Get never yields null, so the null branch of
   * the source is never taken.
   */
  function SpawnItem(ip: ItemPool, defType: ItemType): (r: (Item, ItemPool))
    ensures r.0.itemType == defType
    ensures |ip.objects.queue| > 0 ==> r.0.id == ip.objects.queue[0].id && r.1.objects.queue == ip.objects.queue[1..]
    ensures |ip.objects.queue| == 0 ==> r.0.id == ip.objects.created && r.1.objects.created == ip.objects.created + 1
    ensures PoolInv(ip) ==> !r.0.placed && PoolInv(r.1)
  {
    var (item, objects) := Get(ip.objects, MakeItem(ip.prefabType));
    (InitializeItem(item, defType), ItemPool(objects, ip.prefabType))
  }

  /** An item returned to an empty pool is spawned again, with only its type re-initialised. */
  lemma ReturnedItemIsRespawned(ip: ItemPool, item: Item, defType: ItemType)
    requires |ip.objects.queue| == 0
    ensures SpawnItem(ReturnItem(ip, Some(item)), defType).0 == Item(item.id, defType, false)
  {
    ReturnThenGet(ip.objects, item, ResetItem, MakeItem(ip.prefabType));
  }
}
