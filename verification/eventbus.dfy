/**
 * Events/EventBus.cs as an explicit value instead of a static class: per event
 * type, a table of handlers keyed by a 64-bit invocation key. A handler
 * subscribed with order `o` is stored at the first free key at or after
 * o * GapFactor; Publish invokes a type's handlers in ascending key order.
 *
 * Each per-type Dictionary is modelled as an association list kept sorted by
 * key (so the SortedList snapshot Publish builds is the list itself), plus a
 * table identity standing for the Dictionary object: Publish keeps checking
 * the object it looked up first, even after that object has been removed
 * from the bus. Handlers are identities compared by equality (Delegate.Equals).
 */
module EventBus {
  import opened Wrappers

  /** long.MaxValue / int.MaxValue / 2, with C#'s truncating division on positive operands. */
  const GapFactor: int := 9223372036854775807 / 2147483647 / 2

  /** The range of a C# int (the type of invocationOrder). */
  newtype Int32 = x: int | -0x8000_0000 <= x < 0x8000_0000

  type EventType = nat
  type Handler = nat

  datatype Entry = Entry(key: int, handler: Handler)

  /** A per-type dictionary object: its identity and its entries in ascending key order. */
  datatype Table = Table(id: nat, entries: seq<Entry>)

  /** The bus: one table per event type with subscribers, and the next fresh table identity. */
  datatype Bus = Bus(tables: map<EventType, Table>, nextId: nat)

  /** A bus operation a handler may perform while it runs. */
  datatype BusOp =
    | Sub(eventType: EventType, handler: Option<Handler>, order: Int32)
    | Unsub(eventType: EventType, handler: Option<Handler>)
    | RemoveAll(eventType: EventType)

  const EmptyBus: Bus := Bus(map[], 0)

  ghost predicate Sorted(es: seq<Entry>) {
    forall i, j | 0 <= i < j < |es| :: es[i].key < es[j].key
  }

  function Keys(es: seq<Entry>): set<int> {
    set i | 0 <= i < |es| :: es[i].key
  }

  /** Dictionary.ContainsValue. */
  predicate ContainsHandler(es: seq<Entry>, h: Handler) {
    exists i | 0 <= i < |es| :: es[i].handler == h
  }

  /** Every table is non-empty, sorted, and has an identity older than nextId. */
  ghost predicate BusInv(b: Bus) {
    forall t | t in b.tables ::
      |b.tables[t].entries| > 0 && Sorted(b.tables[t].entries) && b.tables[t].id < b.nextId
  }

  lemma GapFactorValue()
    ensures GapFactor == 2147483649
  {
  }

  /** Base keys o * GapFactor fit in a C# long for every int order. */
  lemma BaseKeyFitsInLong(order: Int32)
    ensures -0x8000_0000_0000_0000 <= order as int * GapFactor < 0x8000_0000_0000_0000
  {
    var o := order as int;
    if o >= 0 {
      assert o * GapFactor <= 0x7fff_ffff * GapFactor;
    } else {
      assert o * GapFactor >= -0x8000_0000 * GapFactor;
    }
  }

  // ---------------------------------------------------------------------------
  // Table operations
  // ---------------------------------------------------------------------------

  /** The linear probe of Subscribe: the first key at or after `k` that is not taken. */
  function Probe(es: seq<Entry>, k: int): (r: int)
    requires Sorted(es)
    ensures r >= k && r !in Keys(es)
    ensures forall j | k <= j < r :: j in Keys(es)
    decreases |es|
  {
    if |es| == 0 then k
    else
      var rest := es[1..];
      assert Sorted(rest);
      assert forall x | x in Keys(rest) :: x in Keys(es) && x > es[0].key by {
        forall x | x in Keys(rest) ensures x in Keys(es) && x > es[0].key {
          var i :| 0 <= i < |rest| && rest[i].key == x;
          assert es[i + 1].key == x;
        }
      }
      assert Keys(es) == {es[0].key} + Keys(rest) by {
        forall x | x in Keys(es) ensures x == es[0].key || x in Keys(rest) {
          var i :| 0 <= i < |es| && es[i].key == x;
          if i > 0 { assert rest[i - 1].key == x; }
        }
      }
      if es[0].key < k then Probe(rest, k)
      else if es[0].key == k then Probe(rest, k + 1)
      else k
  }

  /** Dictionary.Add into a key-sorted list. */
  function Insert(es: seq<Entry>, e: Entry): (r: seq<Entry>)
    requires Sorted(es) && e.key !in Keys(es)
    ensures Sorted(r) && |r| == |es| + 1
    ensures forall x :: x in r <==> x in es || x == e
    decreases |es|
  {
    if |es| == 0 then [e]
    else if e.key < es[0].key then [e] + es
    else
      var rest := es[1..];
      assert Sorted(rest);
      assert e.key != es[0].key by { assert es[0].key in Keys(es); }
      assert forall x | x in Keys(rest) :: x in Keys(es) by {
        forall x | x in Keys(rest) ensures x in Keys(es) {
          var i :| 0 <= i < |rest| && rest[i].key == x;
          assert es[i + 1].key == x;
        }
      }
      var tail := Insert(rest, e);
      assert forall x | x in tail :: x.key > es[0].key by {
        forall x | x in tail ensures x.key > es[0].key {
          if x != e {
            var i :| 0 <= i < |rest| && rest[i] == x;
            assert es[i + 1] == x;
          }
        }
      }
      [es[0]] + tail
  }

  /** The position of the first entry holding `h`, or |es| when there is none. */
  function FirstIndexOf(es: seq<Entry>, h: Handler): (i: nat)
    ensures i <= |es|
    ensures i < |es| ==> es[i].handler == h
    ensures forall j | 0 <= j < i :: es[j].handler != h
    decreases |es|
  {
    if |es| == 0 then 0
    else if es[0].handler == h then 0
    else 1 + FirstIndexOf(es[1..], h)
  }

  /** The unsubscribe loop: remove the first entry holding `h`, if any. */
  function RemoveFirst(es: seq<Entry>, h: Handler): (r: seq<Entry>)
    ensures !ContainsHandler(es, h) ==> r == es
    ensures ContainsHandler(es, h) ==>
              var i := FirstIndexOf(es, h);
              i < |es| && es[i].handler == h && r == es[..i] + es[i + 1..]
    ensures Sorted(es) ==> Sorted(r)
  {
    var i := FirstIndexOf(es, h);
    if i < |es| then
      var r := es[..i] + es[i + 1..];
      assert forall a | 0 <= a < |r| :: r[a] == (if a < i then es[a] else es[a + 1]);
      r
    else es
  }

  // ---------------------------------------------------------------------------
  // Bus operations
  // ---------------------------------------------------------------------------

  /** Subscribe. */
  function Subscribe(b: Bus, t: EventType, h: Option<Handler>, order: Int32): (r: Bus)
    requires BusInv(b)
    ensures BusInv(r)
    ensures h.None? ==> r == b
    ensures h.Some? ==>
              var base := order as int * GapFactor;
              && t in r.tables
              && (forall u | u in b.tables && u != t :: u in r.tables && r.tables[u] == b.tables[u])
              && (forall u | u in r.tables :: u in b.tables || u == t)
              && (t in b.tables ==>
                    var key := Probe(b.tables[t].entries, base);
                    && r.tables[t].id == b.tables[t].id
                    && key >= base && key !in Keys(b.tables[t].entries)
                    && (forall x :: x in r.tables[t].entries <==> x in b.tables[t].entries || x == Entry(key, h.value)))
              && (t !in b.tables ==> r.tables[t] == Table(b.nextId, [Entry(base, h.value)]))
  {
    if h.None? then b
    else
      var base := order as int * GapFactor;
      if t in b.tables then
        var tb := b.tables[t];
        var key := Probe(tb.entries, base);
        b.(tables := b.tables[t := tb.(entries := Insert(tb.entries, Entry(key, h.value)))])
      else
        b.(tables := b.tables[t := Table(b.nextId, [Entry(base, h.value)])], nextId := b.nextId + 1)
  }

  /** UnSubscribe: removes at most one entry, one holding `h`; a table left empty is dropped. */
  function UnSubscribe(b: Bus, t: EventType, h: Option<Handler>): (r: Bus)
    requires BusInv(b)
    ensures BusInv(r)
    ensures h.None? || t !in b.tables ==> r == b
    ensures r.nextId == b.nextId
    ensures forall u | u != t :: (u in r.tables <==> u in b.tables) && (u in r.tables ==> r.tables[u] == b.tables[u])
    ensures h.Some? && t in b.tables ==>
              var es := b.tables[t].entries;
              var left := RemoveFirst(es, h.value);
              && (|left| == 0 ==> t !in r.tables)
              && (|left| > 0 ==> t in r.tables && r.tables[t] == Table(b.tables[t].id, left))
              && |es| - 1 <= |left| <= |es|
              && (|left| < |es| ==> ContainsHandler(es, h.value) && es[FirstIndexOf(es, h.value)].handler == h.value)
  {
    if h.None? || t !in b.tables then b
    else
      var left := RemoveFirst(b.tables[t].entries, h.value);
      if |left| == 0 then b.(tables := b.tables - {t})
      else b.(tables := b.tables[t := b.tables[t].(entries := left)])
  }

  /** RemoveAllListeners: the type disappears from the bus. */
  function RemoveAllListeners(b: Bus, t: EventType): (r: Bus)
    requires BusInv(b)
    ensures BusInv(r)
    ensures t !in r.tables && r.nextId == b.nextId
    ensures forall u | u != t :: (u in r.tables <==> u in b.tables) && (u in r.tables ==> r.tables[u] == b.tables[u])
  {
    if t in b.tables then b.(tables := b.tables - {t}) else b
  }

  function Apply(b: Bus, op: BusOp): (r: Bus)
    requires BusInv(b)
    ensures BusInv(r) && r.nextId >= b.nextId
  {
    match op
    case Sub(t, h, o) => Subscribe(b, t, h, o)
    case Unsub(t, h) => UnSubscribe(b, t, h)
    case RemoveAll(t) => RemoveAllListeners(b, t)
  }

  // ---------------------------------------------------------------------------
  // Publish
  // ---------------------------------------------------------------------------

  /**
   * One bus operation run by a handler during Publish, also returning the
   * contents of the dictionary object Publish captured (type `t`, identity
   * `capId`): a detached object no longer changes, and one removed because it
   * was emptied is empty.
   */
  function RunOp(op: BusOp, t: EventType, capId: nat, live: seq<Entry>, b: Bus): (r: (Bus, seq<Entry>))
    requires BusInv(b)
    ensures BusInv(r.0) && r.0.nextId >= b.nextId
  {
    var b1 := Apply(b, op);
    var attached := t in b.tables && b.tables[t].id == capId;
    var live1 :=
      if !attached then live
      else if t in b1.tables && b1.tables[t].id == capId then b1.tables[t].entries
      else if op.Unsub? then []
      else b.tables[t].entries;
    (b1, live1)
  }

  function RunOps(ops: seq<BusOp>, t: EventType, capId: nat, live: seq<Entry>, b: Bus): (r: (Bus, seq<Entry>))
    requires BusInv(b)
    ensures BusInv(r.0) && r.0.nextId >= b.nextId
    ensures ops == [] ==> r == (b, live)
    decreases |ops|
  {
    if |ops| == 0 then (b, live)
    else
      var (b1, live1) := RunOp(ops[0], t, capId, live, b);
      RunOps(ops[1..], t, capId, live1, b1)
  }

  /**
   * The dispatch loop over the sorted snapshot `pending`: a handler is invoked
   * only if the captured dictionary still contains it when its turn comes.
   * `effects(h)` is what invoking h does to the bus. Returns the invoked
   * entries, in order, and the final bus.
   */
  function Dispatch(pending: seq<Entry>, t: EventType, capId: nat, live: seq<Entry>, b: Bus,
                    effects: Handler -> seq<BusOp>): (r: (seq<Entry>, Bus))
    requires BusInv(b)
    ensures BusInv(r.1)
    ensures |r.0| <= |pending|
    ensures forall x | x in r.0 :: x in pending
    ensures Sorted(pending) ==> Sorted(r.0)
    ensures |pending| > 0 && !ContainsHandler(live, pending[0].handler) ==> pending[0] !in r.0 || pending[0] in pending[1..]
    ensures |pending| > 0 && ContainsHandler(live, pending[0].handler) ==> |r.0| > 0 && r.0[0] == pending[0]
    decreases |pending|
  {
    if |pending| == 0 then ([], b)
    else
      var e := pending[0];
      if !ContainsHandler(live, e.handler) then
        Dispatch(pending[1..], t, capId, live, b, effects)
      else
        var (b1, live1) := RunOps(effects(e.handler), t, capId, live, b);
        var (rest, b2) := Dispatch(pending[1..], t, capId, live1, b1, effects);
        assert forall x | x in rest :: x in pending[1..];
        assert Sorted(pending) ==> forall x | x in rest :: x.key > e.key by {
          if Sorted(pending) {
            forall x | x in rest ensures x.key > e.key {
              var i :| 0 <= i < |pending[1..]| && pending[1..][i] == x;
              assert pending[i + 1] == x;
            }
          }
        }
        ([e] + rest, b2)
  }

  /** Publish: invoke the type's handlers in ascending key order. */
  function Publish(b: Bus, t: EventType, effects: Handler -> seq<BusOp>): (r: (seq<Entry>, Bus))
    requires BusInv(b)
    ensures BusInv(r.1)
    ensures t !in b.tables ==> r == ([], b)
    ensures Sorted(r.0)
    ensures t in b.tables ==> forall x | x in r.0 :: x in b.tables[t].entries
    ensures t in b.tables ==> |r.0| > 0 && r.0[0] == b.tables[t].entries[0]
  {
    if t !in b.tables then ([], b)
    else
      var tb := b.tables[t];
      assert ContainsHandler(tb.entries, tb.entries[0].handler);
      Dispatch(tb.entries, t, tb.id, tb.entries, b, effects)
  }

  // ---------------------------------------------------------------------------
  // Properties
  // ---------------------------------------------------------------------------

  /** Keys within a type stay distinct: each table is strictly sorted. */
  lemma KeysDistinct(b: Bus, t: EventType, i: int, j: int)
    requires BusInv(b) && t in b.tables
    requires 0 <= i < j < |b.tables[t].entries|
    ensures b.tables[t].entries[i].key != b.tables[t].entries[j].key
  {
  }

  /** When no handler touches the bus, Publish invokes every subscriber exactly once, in key order. */
  lemma {:induction false} QuietDispatchInvokesAll(pending: seq<Entry>, t: EventType, capId: nat, live: seq<Entry>,
                                                   b: Bus, effects: Handler -> seq<BusOp>)
    requires BusInv(b)
    requires forall h :: effects(h) == []
    requires forall i | 0 <= i < |pending| :: ContainsHandler(live, pending[i].handler)
    ensures Dispatch(pending, t, capId, live, b, effects) == (pending, b)
    decreases |pending|
  {
    if |pending| > 0 {
      assert ContainsHandler(live, pending[0].handler);
      assert RunOps(effects(pending[0].handler), t, capId, live, b) == (b, live);
      QuietDispatchInvokesAll(pending[1..], t, capId, live, b, effects);
      assert [pending[0]] + pending[1..] == pending;
    }
  }

  lemma QuietPublishInvokesAll(b: Bus, t: EventType, effects: Handler -> seq<BusOp>)
    requires BusInv(b) && t in b.tables
    requires forall h :: effects(h) == []
    ensures Publish(b, t, effects) == (b.tables[t].entries, b)
  {
    var es := b.tables[t].entries;
    forall i | 0 <= i < |es| ensures ContainsHandler(es, es[i].handler) {
    }
    QuietDispatchInvokesAll(es, t, b.tables[t].id, es, b, effects);
  }

  /** No handler unsubscribes from type `t` while it runs. */
  ghost predicate NeverUnsubscribes(effects: Handler -> seq<BusOp>, t: EventType) {
    forall h, i | 0 <= i < |effects(h)| :: !(effects(h)[i].Unsub? && effects(h)[i].eventType == t)
  }

  /** While the captured dictionary is still on the bus, `live` is its contents. */
  ghost predicate Tracks(b: Bus, t: EventType, capId: nat, live: seq<Entry>) {
    capId < b.nextId && (t in b.tables && b.tables[t].id == capId ==> b.tables[t].entries == live)
  }

  /** An operation other than unsubscribing from `t` keeps every handler of the captured dictionary in it. */
  lemma RunOpKeepsHandlers(op: BusOp, t: EventType, capId: nat, live: seq<Entry>, b: Bus)
    requires BusInv(b) && Tracks(b, t, capId, live)
    requires !(op.Unsub? && op.eventType == t)
    ensures var r := RunOp(op, t, capId, live, b);
            && Tracks(r.0, t, capId, r.1)
            && forall h | ContainsHandler(live, h) :: ContainsHandler(r.1, h)
  {
    var b1 := Apply(b, op);
    var attached := t in b.tables && b.tables[t].id == capId;
    if attached && t in b1.tables && b1.tables[t].id == capId {
      forall h | ContainsHandler(live, h) ensures ContainsHandler(b1.tables[t].entries, h) {
        var i :| 0 <= i < |live| && live[i].handler == h;
        assert live[i] in b1.tables[t].entries;
      }
    }
  }

  lemma {:induction false} RunOpsKeepHandlers(ops: seq<BusOp>, t: EventType, capId: nat, live: seq<Entry>, b: Bus)
    requires BusInv(b) && Tracks(b, t, capId, live)
    requires forall i | 0 <= i < |ops| :: !(ops[i].Unsub? && ops[i].eventType == t)
    ensures var r := RunOps(ops, t, capId, live, b);
            && Tracks(r.0, t, capId, r.1)
            && forall h | ContainsHandler(live, h) :: ContainsHandler(r.1, h)
    decreases |ops|
  {
    if |ops| > 0 {
      RunOpKeepsHandlers(ops[0], t, capId, live, b);
      var (b1, live1) := RunOp(ops[0], t, capId, live, b);
      RunOpsKeepHandlers(ops[1..], t, capId, live1, b1);
    }
  }

  /** Without unsubscriptions from the published type, every pending entry still registered is invoked. */
  lemma {:induction false} DispatchWithoutUnsubscribeInvokesAll(pending: seq<Entry>, t: EventType, capId: nat,
                                                                live: seq<Entry>, b: Bus, effects: Handler -> seq<BusOp>)
    requires BusInv(b) && Tracks(b, t, capId, live) && NeverUnsubscribes(effects, t)
    requires forall i | 0 <= i < |pending| :: ContainsHandler(live, pending[i].handler)
    ensures Dispatch(pending, t, capId, live, b, effects).0 == pending
    decreases |pending|
  {
    if |pending| > 0 {
      var ops := effects(pending[0].handler);
      RunOpsKeepHandlers(ops, t, capId, live, b);
      var (b1, live1) := RunOps(ops, t, capId, live, b);
      DispatchWithoutUnsubscribeInvokesAll(pending[1..], t, capId, live1, b1, effects);
      assert [pending[0]] + pending[1..] == pending;
    }
  }

  /**
   * Handlers may subscribe, and may clear any type, while Publish runs: as long
   * as none unsubscribes from the published type, every subscriber present at
   * the start is invoked exactly once, in key order.
   */
  lemma PublishWithoutUnsubscribeInvokesAll(b: Bus, t: EventType, effects: Handler -> seq<BusOp>)
    requires BusInv(b) && t in b.tables && NeverUnsubscribes(effects, t)
    ensures Publish(b, t, effects).0 == b.tables[t].entries
  {
    var es := b.tables[t].entries;
    forall i | 0 <= i < |es| ensures ContainsHandler(es, es[i].handler) {
    }
    DispatchWithoutUnsubscribeInvokesAll(es, t, b.tables[t].id, es, b, effects);
  }

  /** A handler whose entries are all gone by its turn is skipped. */
  lemma UnregisteredHandlerSkipped(pending: seq<Entry>, t: EventType, capId: nat, live: seq<Entry>,
                                   b: Bus, effects: Handler -> seq<BusOp>)
    requires BusInv(b) && |pending| > 0 && !ContainsHandler(live, pending[0].handler)
    ensures Dispatch(pending, t, capId, live, b, effects) == Dispatch(pending[1..], t, capId, live, b, effects)
  {
  }

  /** A handler unsubscribing a later one during Publish prevents that one from running. */
  lemma UnsubscribeDuringDispatch(b: Bus, e1: Entry, e2: Entry)
    requires BusInv(b) && 0 in b.tables && b.tables[0].entries == [e1, e2] && e1.handler != e2.handler
    ensures var effects := (h: Handler) => if h == e1.handler then [Unsub(0, Some(e2.handler))] else [];
            Publish(b, 0, effects).0 == [e1]
  {
    var effects := (h: Handler) => if h == e1.handler then [Unsub(0, Some(e2.handler))] else [];
    var es := b.tables[0].entries;
    var capId := b.tables[0].id;
    assert ContainsHandler(es, e1.handler) by { assert es[0].handler == e1.handler; }
    assert FirstIndexOf(es, e2.handler) == 1;
    assert RemoveFirst(es, e2.handler) == [e1];
    var b1 := UnSubscribe(b, 0, Some(e2.handler));
    assert b1.tables[0] == Table(capId, [e1]);
    var ru := RunOps(effects(e1.handler), 0, capId, es, b);
    assert ru.1 == [e1];
    assert !ContainsHandler(ru.1, e2.handler);
    assert Dispatch([e2], 0, capId, ru.1, ru.0, effects).0 == [];
  }

  /** Subscribing twice with the same order probes to the next key. */
  lemma SameOrderProbesToNextKey()
    ensures var b := Subscribe(Subscribe(EmptyBus, 0, Some(7), 3), 0, Some(8), 3);
            b.tables[0].entries == [Entry(3 * GapFactor, 7), Entry(3 * GapFactor + 1, 8)]
  {
    var es := [Entry(3 * GapFactor, 7)];
    var b1 := Subscribe(EmptyBus, 0, Some(7), 3);
    assert b1.tables[0].entries == es;
    assert Probe(es, 3 * GapFactor) == Probe([], 3 * GapFactor + 1);
    assert Insert(es, Entry(3 * GapFactor + 1, 8)) == [es[0]] + Insert([], Entry(3 * GapFactor + 1, 8));
  }
}
