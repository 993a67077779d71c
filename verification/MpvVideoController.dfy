/** The node functions of wallpaper-factory/mpvvideocontroller.cpp on a heap of blocks. */
module MpvVideoController {
  import opened MpvNode

  /** The C++ heap: which blocks are allocated. Deleting a dead block is an error. */
  class Heap {
    var next: nat
    var live: set<nat>

    constructor ()
      ensures next == 0 && live == {}
    {
      next, live := 0, {};
    }

    method New() returns (block: nat)
      modifies this
      ensures block == old(next) && next == old(next) + 1 && live == old(live) + {block}
    {
      block := next;
      live := live + {block};
      next := next + 1;
    }

    method Delete(block: nat)
      requires block in live
      modifies this`live
      ensures live == old(live) - {block}
    {
      live := live - {block};
    }
  }

  /** Everything that was live still is, and so are the blocks from `from` to `to`. */
  ghost predicate Grown(before: set<nat>, after: set<nat>, from: nat, to: nat) {
    forall x: nat :: x in after <==> x in before || from <= x < to
  }

  method CreateList(heap: Heap, isMap: bool) returns (list: nat, valueArray: nat, keyArray: nat)
    modifies heap
    ensures list == old(heap.next) && valueArray == list + 1 && (isMap ==> keyArray == list + 2)
    ensures heap.next == list + if isMap then 3 else 2
    ensures Grown(old(heap.live), heap.live, list, heap.next)
  {
    list := heap.New();
    valueArray := heap.New();
    keyArray := 0;
    if isMap {
      keyArray := heap.New();
    }
  }

  method SetNode(heap: Heap, src: Variant) returns (node: Node)
    modifies heap
    ensures node == Encode(src, old(heap.next))
    ensures heap.next == old(heap.next) + Size(src)
    ensures Grown(old(heap.live), heap.live, old(heap.next), heap.next)
    decreases src, 1
  {
    match src
    case Str(t) =>
      var block := heap.New();
      node := StringNode(block, CString(t));
    case Bool(b) =>
      node := FlagNode(if b then 1 else 0);
    case Integer(_, n) =>
      node := Int64Node(ToInt64(n));
    case Double(r) =>
      node := DoubleNode(r);
    case List(_, items) =>
      var list, valueArray, _ := CreateList(heap, false);
      var values := SetValues(heap, items);
      node := ArrayNode(list, valueArray, values);
    case Map(_, entries) =>
      var list, valueArray, keyArray := CreateList(heap, true);
      var slots := SetSlots(heap, entries);
      node := MapNode(list, valueArray, keyArray, slots);
    case Invalid =>
      node := NoneNode;
    case Opaque =>
      node := NoneNode;
  }

  /** The loop over a list's items. */
  method SetValues(heap: Heap, items: seq<Variant>) returns (values: seq<Node>)
    modifies heap
    ensures values == EncodeAll(items, old(heap.next))
    ensures heap.next == old(heap.next) + SizeAll(items)
    ensures Grown(old(heap.live), heap.live, old(heap.next), heap.next)
    decreases items, 0
  {
    values := [];
    for n := 0 to |items|
      invariant values == EncodeAll(items[..n], old(heap.next))
      invariant heap.next == old(heap.next) + SizeAll(items[..n])
      invariant Grown(old(heap.live), heap.live, old(heap.next), heap.next)
    {
      assert items[..n + 1][..n] == items[..n];
      var node := SetNode(heap, items[n]);
      values := values + [node];
    }
    assert items[..|items|] == items;
  }

  /** The loop over a map's entries: the key string, then the value. */
  method SetSlots(heap: Heap, entries: seq<Entry>) returns (slots: seq<Slot>)
    modifies heap
    ensures slots == EncodeEntries(entries, old(heap.next))
    ensures heap.next == old(heap.next) + SizeEntries(entries)
    ensures Grown(old(heap.live), heap.live, old(heap.next), heap.next)
    decreases entries, 0
  {
    slots := [];
    for n := 0 to |entries|
      invariant slots == EncodeEntries(entries[..n], old(heap.next))
      invariant heap.next == old(heap.next) + SizeEntries(entries[..n])
      invariant Grown(old(heap.live), heap.live, old(heap.next), heap.next)
    {
      assert entries[..n + 1][..n] == entries[..n];
      var key := heap.New();
      assert entries[n].value < entries[n];
      var node := SetNode(heap, entries[n].value);
      slots := slots + [Slot(key, CString(entries[n].key), node)];
    }
    assert entries[..|entries|] == entries;
  }

  function Bit(b: bool): nat {
    if b then 1 else 0
  }

  method FreeNode(heap: Heap, node: Node)
    requires forall x: nat :: Deletes(node, x) <= Bit(x in heap.live)
    modifies heap`live
    ensures forall x: nat :: x in heap.live <==> x in old(heap.live) && Deletes(node, x) == 0
    decreases node, 1
  {
    match node
    case StringNode(block, _) =>
      assert Deletes(node, block) == 1;
      heap.Delete(block);
    case ArrayNode(list, valueArray, values) =>
      assert forall x: nat :: DeletesAll(values, x) <= Deletes(node, x);
      FreeValues(heap, values);
      assert Deletes(node, valueArray) <= 1 && Deletes(node, list) <= 1;
      heap.Delete(valueArray);
      heap.Delete(list);
    case MapNode(list, valueArray, keyArray, slots) =>
      assert forall x: nat :: DeletesSlots(slots, x) <= Deletes(node, x);
      FreeSlots(heap, slots);
      assert Deletes(node, valueArray) <= 1 && Deletes(node, list) <= 1 && Deletes(node, keyArray) <= 1;
      heap.Delete(keyArray);
      heap.Delete(valueArray);
      heap.Delete(list);
    case _ =>
  }

  lemma {:induction false} PrefixDeletesLess(values: seq<Node>, n: nat, x: nat)
    requires n <= |values|
    ensures DeletesAll(values[..n], x) <= DeletesAll(values, x)
    decreases |values| - n
  {
    if n == |values| {
      assert values[..n] == values;
    } else {
      assert values[..n + 1][..n] == values[..n];
      PrefixDeletesLess(values, n + 1, x);
    }
  }

  lemma {:induction false} PrefixSlotsDeleteLess(slots: seq<Slot>, n: nat, x: nat)
    requires n <= |slots|
    ensures DeletesSlots(slots[..n], x) <= DeletesSlots(slots, x)
    decreases |slots| - n
  {
    if n == |slots| {
      assert slots[..n] == slots;
    } else {
      assert slots[..n + 1][..n] == slots[..n];
      PrefixSlotsDeleteLess(slots, n + 1, x);
    }
  }

  method FreeValues(heap: Heap, values: seq<Node>)
    requires forall x: nat :: DeletesAll(values, x) <= Bit(x in heap.live)
    modifies heap`live
    ensures forall x: nat :: x in heap.live <==> x in old(heap.live) && DeletesAll(values, x) == 0
    decreases values, 0
  {
    for n := 0 to |values|
      invariant forall x: nat :: x in heap.live <==> x in old(heap.live) && DeletesAll(values[..n], x) == 0
    {
      assert values[..n + 1][..n] == values[..n];
      forall x: nat
        ensures Deletes(values[n], x) <= Bit(x in heap.live)
      {
        PrefixDeletesLess(values, n + 1, x);
      }
      FreeNode(heap, values[n]);
    }
    assert values[..|values|] == values;
  }

  method FreeSlots(heap: Heap, slots: seq<Slot>)
    requires forall x: nat :: DeletesSlots(slots, x) <= Bit(x in heap.live)
    modifies heap`live
    ensures forall x: nat :: x in heap.live <==> x in old(heap.live) && DeletesSlots(slots, x) == 0
    decreases slots, 0
  {
    for n := 0 to |slots|
      invariant forall x: nat :: x in heap.live <==> x in old(heap.live) && DeletesSlots(slots[..n], x) == 0
    {
      assert slots[..n + 1][..n] == slots[..n];
      forall x: nat
        ensures One(slots[n].keyBlock, x) + Deletes(slots[n].value, x) <= Bit(x in heap.live)
      {
        PrefixSlotsDeleteLess(slots, n + 1, x);
      }
      assert One(slots[n].keyBlock, slots[n].keyBlock) == 1;
      heap.Delete(slots[n].keyBlock);
      assert slots[n].value < slots[n];
      FreeNode(heap, slots[n].value);
    }
    assert slots[..|slots|] == slots;
  }

  /** Building a node and freeing it leaves the heap as it was. */
  method BuildAndFree(heap: Heap, src: Variant)
    requires forall x :: x in heap.live ==> x < heap.next
    modifies heap
    ensures heap.live == old(heap.live)
  {
    var node := SetNode(heap, src);
    forall x: nat {
      AllocationBalance(src, old(heap.next), x);
    }
    FreeNode(heap, node);
  }

  /** setProperty, setPropertyAsync, command and commandAsync build a node and never free it:
      every call leaves all of the node's blocks allocated. */
  method SetProperty(heap: Heap, value: Variant) returns (sent: Node)
    modifies heap
    ensures sent == Encode(value, old(heap.next))
    ensures forall x: nat :: x in heap.live <==> x in old(heap.live) || Deletes(sent, x) == 1
    ensures heap.next == old(heap.next) + Size(value)
  {
    sent := SetNode(heap, value);
    forall x: nat {
      AllocationBalance(value, old(heap.next), x);
    }
  }

  /** The decoder's loops. */
  method NodeToVariant(node: Node) returns (v: Variant)
    ensures v == Decode(node)
    decreases node, 1
  {
    match node
    case StringNode(_, t) => v := Str(t);
    case FlagNode(f) => v := Bool(f != 0);
    case Int64Node(n) => v := Integer(LongLong, n);
    case DoubleNode(r) => v := Double(r);
    case ArrayNode(_, _, values) =>
      var items := ValuesToList(values);
      v := List(Native, items);
    case MapNode(_, _, _, slots) =>
      var entries := SlotsToMap(slots);
      v := Map(Native, entries);
    case NoneNode => v := Invalid;
  }

  method ValuesToList(values: seq<Node>) returns (items: seq<Variant>)
    ensures items == DecodeAll(values)
    decreases values, 0
  {
    items := [];
    for n := 0 to |values|
      invariant items == DecodeAll(values[..n])
    {
      assert values[..n + 1][..n] == values[..n];
      var item := NodeToVariant(values[n]);
      items := items + [item];
    }
    assert values[..|values|] == values;
  }

  method SlotsToMap(slots: seq<Slot>) returns (entries: seq<Entry>)
    ensures entries == DecodeSlots(slots)
    decreases slots, 0
  {
    entries := [];
    for n := 0 to |slots|
      invariant entries == DecodeSlots(slots[..n])
    {
      assert slots[..n + 1][..n] == slots[..n];
      assert slots[n].value < slots[n];
      var value := NodeToVariant(slots[n].value);
      entries := Insert(entries, Entry(slots[n].key, value));
    }
    assert slots[..|slots|] == slots;
  }
}
