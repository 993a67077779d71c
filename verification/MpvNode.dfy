/** The mpv node codec of wallpaper-factory/mpvvideocontroller.cpp: encoder, decoder and
    deallocator of nested values, with every heap block they touch. */
module MpvNode {

  /** Text is the UTF-16 units of a QString, 0 being NUL. Well-formed text survives UTF-8. */
  datatype Text = End | Char(unit: nat, rest: Text)

  datatype IntKind = Int | UInt | LongLong | ULongLong

  /** Whether a container is a QVariantList or QVariantMap itself or a type that converts to
      one, such as the QStringList of a command, given by what it converts to. */
  datatype Container = Native | Convertible

  /** A QVariant. A map is kept in key order; `Opaque` stands for every type that converts
      neither to a list nor to a map. */
  datatype Variant =
    | Invalid
    | Str(text: Text)
    | Bool(b: bool)
    | Integer(kind: IntKind, n: int)
    | Double(r: real)
    | List(container: Container, items: seq<Variant>)
    | Map(container: Container, entries: seq<Entry>)
    | Opaque

  datatype Entry = Entry(key: Text, value: Variant)

  /** An mpv_node with the addresses of the blocks it owns. */
  datatype Node =
    | NoneNode
    | StringNode(block: nat, text: Text)
    | FlagNode(flag: nat)
    | Int64Node(n: int)
    | DoubleNode(r: real)
    | ArrayNode(list: nat, valueArray: nat, values: seq<Node>)
    | MapNode(list: nat, valueArray: nat, keyArray: nat, slots: seq<Slot>)

  datatype Slot = Slot(keyBlock: nat, key: Text, value: Node)

  // ----- text and numbers ----------------------------------------------------------

  /** qstrdup stops at the first NUL. */
  function CString(t: Text): Text {
    match t
    case End => End
    case Char(unit, rest) => if unit == 0 then End else Char(unit, CString(rest))
  }

  predicate HasNul(t: Text) {
    t.Char? && (t.unit == 0 || HasNul(t.rest))
  }

  /** QVariant::toLongLong on a 64-bit value. */
  function ToInt64(n: int): int {
    if n >= 0x8000_0000_0000_0000 then n - 0x1_0000_0000_0000_0000 else n
  }

  predicate InRange(kind: IntKind, n: int) {
    match kind
    case Int => -0x8000_0000 <= n < 0x8000_0000
    case UInt => 0 <= n < 0x1_0000_0000
    case LongLong => -0x8000_0000_0000_0000 <= n < 0x8000_0000_0000_0000
    case ULongLong => 0 <= n < 0x1_0000_0000_0000_0000
  }

  /** The order of QMap's keys. */
  predicate Less(a: Text, b: Text) {
    match (a, b)
    case (_, End) => false
    case (End, Char(_, _)) => true
    case (Char(p, x), Char(q, y)) => p < q || (p == q && Less(x, y))
  }

  /** Keys in strict order, each compared with the one before it. */
  predicate Ascending(entries: seq<Entry>) {
    |entries| <= 1
    || (Ascending(entries[..|entries| - 1]) && Less(entries[|entries| - 2].key, entries[|entries| - 1].key))
  }

  predicate NulFreeKeys(entries: seq<Entry>) {
    entries == [] || (NulFreeKeys(entries[..|entries| - 1]) && !HasNul(entries[|entries| - 1].key))
  }

  /** Variants that exist: integers in the range of their type, maps in strict key order. */
  predicate Exists(v: Variant)
    decreases v, 1
  {
    match v
    case Integer(kind, n) => InRange(kind, n)
    case List(_, items) => ExistAll(items)
    case Map(_, entries) => Ascending(entries) && ExistEntries(entries)
    case _ => true
  }

  predicate ExistAll(items: seq<Variant>)
    decreases items, 0
  {
    items == [] || (ExistAll(items[..|items| - 1]) && Exists(items[|items| - 1]))
  }

  predicate ExistEntries(entries: seq<Entry>)
    decreases entries, 0
  {
    if entries == [] then true
    else
      var last := entries[|entries| - 1];
      assert last.value < last;
      ExistEntries(entries[..|entries| - 1]) && Exists(last.value)
  }

  /** No string and no key contains a NUL, and every integer is below 2^63. */
  predicate Plain(v: Variant)
    decreases v, 1
  {
    match v
    case Str(t) => !HasNul(t)
    case Integer(_, n) => n < 0x8000_0000_0000_0000
    case List(_, items) => PlainAll(items)
    case Map(_, entries) => NulFreeKeys(entries) && PlainEntries(entries)
    case _ => true
  }

  predicate PlainAll(items: seq<Variant>)
    decreases items, 0
  {
    items == [] || (PlainAll(items[..|items| - 1]) && Plain(items[|items| - 1]))
  }

  predicate PlainEntries(entries: seq<Entry>)
    decreases entries, 0
  {
    if entries == [] then true
    else
      var last := entries[|entries| - 1];
      assert last.value < last;
      PlainEntries(entries[..|entries| - 1]) && Plain(last.value)
  }

  // ----- encoding ------------------------------------------------------------------

  /** How many blocks a value needs: strings one, lists two and maps three plus a key string
      per entry, and their children's. */
  function Size(v: Variant): nat
    decreases v, 1
  {
    match v
    case Str(_) => 1
    case List(_, items) => 2 + SizeAll(items)
    case Map(_, entries) => 3 + SizeEntries(entries)
    case _ => 0
  }

  function SizeAll(items: seq<Variant>): nat
    decreases items, 0
  {
    if items == [] then 0 else SizeAll(items[..|items| - 1]) + Size(items[|items| - 1])
  }

  function SizeEntries(entries: seq<Entry>): nat
    decreases entries, 0
  {
    if entries == [] then 0
    else
      var last := entries[|entries| - 1];
      assert last.value < last;
      SizeEntries(entries[..|entries| - 1]) + 1 + Size(last.value)
  }

  /** `setNode` when `next` is the next free address; the blocks are numbered in the order
      in which they are allocated. */
  function Encode(v: Variant, next: nat): Node
    decreases v, 1
  {
    match v
    case Str(t) => StringNode(next, CString(t))
    case Bool(b) => FlagNode(if b then 1 else 0)
    case Integer(_, n) => Int64Node(ToInt64(n))
    case Double(r) => DoubleNode(r)
    case List(_, items) => ArrayNode(next, next + 1, EncodeAll(items, next + 2))
    case Map(_, entries) => MapNode(next, next + 1, next + 2, EncodeEntries(entries, next + 3))
    case Invalid => NoneNode
    case Opaque => NoneNode
  }

  function EncodeAll(items: seq<Variant>, next: nat): seq<Node>
    decreases items, 0
  {
    if items == [] then []
    else
      var prior := items[..|items| - 1];
      EncodeAll(prior, next) + [Encode(items[|items| - 1], next + SizeAll(prior))]
  }

  function EncodeEntries(entries: seq<Entry>, next: nat): seq<Slot>
    decreases entries, 0
  {
    if entries == [] then []
    else
      var prior, last := entries[..|entries| - 1], entries[|entries| - 1];
      var at := next + SizeEntries(prior);
      assert last.value < last;
      EncodeEntries(prior, next) + [Slot(at, CString(last.key), Encode(last.value, at + 1))]
  }

  // ----- decoding ------------------------------------------------------------------

  /** QVariantMap::insert: in key order, replacing the value of an equal key. */
  function Insert(entries: seq<Entry>, e: Entry): seq<Entry> {
    if entries == [] then [e]
    else
      var last := entries[|entries| - 1];
      if last.key == e.key then entries[..|entries| - 1] + [e]
      else if Less(last.key, e.key) then entries + [e]
      else Insert(entries[..|entries| - 1], e) + [last]
  }

  function Decode(node: Node): Variant
    decreases node, 1
  {
    match node
    case NoneNode => Invalid
    case StringNode(_, t) => Str(t)
    case FlagNode(f) => Bool(f != 0)
    case Int64Node(n) => Integer(LongLong, n)
    case DoubleNode(r) => Double(r)
    case ArrayNode(_, _, nodes) => List(Native, DecodeAll(nodes))
    case MapNode(_, _, _, slots) => Map(Native, DecodeSlots(slots))
  }

  function DecodeAll(nodes: seq<Node>): seq<Variant>
    decreases nodes, 0
  {
    if nodes == [] then [] else DecodeAll(nodes[..|nodes| - 1]) + [Decode(nodes[|nodes| - 1])]
  }

  function DecodeSlots(slots: seq<Slot>): seq<Entry>
    decreases slots, 0
  {
    if slots == [] then []
    else
      var s := slots[|slots| - 1];
      assert s.value < s;
      Insert(DecodeSlots(slots[..|slots| - 1]), Entry(s.key, Decode(s.value)))
  }

  // ----- freeing ---------------------------------------------------------------------

  function One(a: nat, b: nat): nat {
    if a == b then 1 else 0
  }

  /** How often `freeNode` deletes the block at address `x`. */
  function Deletes(node: Node, x: nat): nat
    decreases node, 1
  {
    match node
    case StringNode(block, _) => One(block, x)
    case ArrayNode(list, valueArray, nodes) => DeletesAll(nodes, x) + One(valueArray, x) + One(list, x)
    case MapNode(list, valueArray, keyArray, slots) =>
      DeletesSlots(slots, x) + One(keyArray, x) + One(valueArray, x) + One(list, x)
    case _ => 0
  }

  function DeletesAll(nodes: seq<Node>, x: nat): nat
    decreases nodes, 0
  {
    if nodes == [] then 0 else DeletesAll(nodes[..|nodes| - 1], x) + Deletes(nodes[|nodes| - 1], x)
  }

  function DeletesSlots(slots: seq<Slot>, x: nat): nat
    decreases slots, 0
  {
    if slots == [] then 0
    else
      var s := slots[|slots| - 1];
      assert s.value < s;
      DeletesSlots(slots[..|slots| - 1], x) + One(s.keyBlock, x) + Deletes(s.value, x)
  }

  function Within(x: nat, from: nat, to: nat): nat {
    if from <= x < to then 1 else 0
  }

  /** freeNode releases exactly the blocks setNode allocated, each exactly once: the node
      owns the addresses from `next` on, as many as its size, and no others. */
  lemma {:induction false} AllocationBalance(v: Variant, next: nat, x: nat)
    ensures Deletes(Encode(v, next), x) == Within(x, next, next + Size(v))
    decreases v, 1
  {
    match v
    case Str(t) => StringBalance(t, next, x);
    case List(_, items) =>
      BalanceAll(items, next + 2, x);
      ListBalance(v, next, x);
    case Map(_, entries) =>
      BalanceEntries(entries, next + 3, x);
      MapBalance(v, next, x);
    case _ =>
  }

  lemma {:induction false} StringBalance(t: Text, next: nat, x: nat)
    ensures Deletes(Encode(Str(t), next), x) == Within(x, next, next + Size(Str(t)))
  {
  }

  lemma {:induction false} ListBalance(v: Variant, next: nat, x: nat)
    requires v.List? && DeletesAll(EncodeAll(v.items, next + 2), x) == Within(x, next + 2, next + 2 + SizeAll(v.items))
    ensures Deletes(Encode(v, next), x) == Within(x, next, next + Size(v))
  {
  }

  lemma {:induction false} MapBalance(v: Variant, next: nat, x: nat)
    requires v.Map? && DeletesSlots(EncodeEntries(v.entries, next + 3), x)
             == Within(x, next + 3, next + 3 + SizeEntries(v.entries))
    ensures Deletes(Encode(v, next), x) == Within(x, next, next + Size(v))
  {
  }

  lemma {:induction false} BalanceAll(items: seq<Variant>, next: nat, x: nat)
    ensures DeletesAll(EncodeAll(items, next), x) == Within(x, next, next + SizeAll(items))
    decreases items, 0
  {
    if items != [] {
      var prior, all := items[..|items| - 1], EncodeAll(items, next);
      BalanceAll(prior, next, x);
      AllocationBalance(items[|items| - 1], next + SizeAll(prior), x);
      assert all[..|all| - 1] == EncodeAll(prior, next);
    }
  }

  lemma {:induction false} BalanceEntries(entries: seq<Entry>, next: nat, x: nat)
    ensures DeletesSlots(EncodeEntries(entries, next), x) == Within(x, next, next + SizeEntries(entries))
    decreases entries, 0
  {
    if entries != [] {
      var prior, all := entries[..|entries| - 1], EncodeEntries(entries, next);
      BalanceEntries(prior, next, x);
      assert entries[|entries| - 1].value < entries[|entries| - 1];
      AllocationBalance(entries[|entries| - 1].value, next + SizeEntries(prior) + 1, x);
      assert all[..|all| - 1] == EncodeEntries(prior, next);
    }
  }

  // ----- round trip ------------------------------------------------------------------

  /** What is meant to survive the codec: the numbers as 64-bit integers, the containers as native
      ones, unsupported leaves as invalid. */
  function Normal(v: Variant): Variant
    decreases v, 1
  {
    match v
    case Integer(_, n) => Integer(LongLong, n)
    case List(_, items) => List(Native, NormalAll(items))
    case Map(_, entries) => Map(Native, NormalEntries(entries))
    case Opaque => Invalid
    case _ => v
  }

  function NormalAll(items: seq<Variant>): seq<Variant>
    decreases items, 0
  {
    if items == [] then [] else NormalAll(items[..|items| - 1]) + [Normal(items[|items| - 1])]
  }

  function NormalEntries(entries: seq<Entry>): seq<Entry>
    decreases entries, 0
  {
    if entries == [] then []
    else
      var e := entries[|entries| - 1];
      assert e.value < e;
      NormalEntries(entries[..|entries| - 1]) + [Entry(e.key, Normal(e.value))]
  }

  lemma {:induction false} CStringFacts(t: Text)
    ensures !HasNul(CString(t))
    ensures CString(t) == t <==> !HasNul(t)
  {
    if t.Char? {
      CStringFacts(t.rest);
    }
  }

  lemma {:induction false} LessIsStrict(t: Text)
    ensures !Less(t, t)
  {
    if t.Char? {
      LessIsStrict(t.rest);
    }
  }

  /** A list decodes item by item. */
  lemma {:induction false} DecodeAllStep(items: seq<Variant>, next: nat)
    requires items != []
    ensures var prior := items[..|items| - 1];
            DecodeAll(EncodeAll(items, next))
            == DecodeAll(EncodeAll(prior, next)) + [Decode(Encode(items[|items| - 1], next + SizeAll(prior)))]
  {
    var all := EncodeAll(items, next);
    assert all[..|all| - 1] == EncodeAll(items[..|items| - 1], next);
  }

  /** The entry the last slot of a map decodes to. */
  function LastDecoded(entries: seq<Entry>, next: nat): Entry
    requires entries != []
  {
    var prior, last := entries[..|entries| - 1], entries[|entries| - 1];
    Entry(CString(last.key), Decode(Encode(last.value, next + SizeEntries(prior) + 1)))
  }

  /** A map decodes by inserting entry after entry. */
  lemma {:induction false} DecodeSlotsStep(entries: seq<Entry>, next: nat)
    requires entries != []
    ensures DecodeSlots(EncodeEntries(entries, next))
            == Insert(DecodeSlots(EncodeEntries(entries[..|entries| - 1], next)), LastDecoded(entries, next))
  {
    var all := EncodeEntries(entries, next);
    assert all[..|all| - 1] == EncodeEntries(entries[..|entries| - 1], next);
  }

  // ----- numbers, flags, texts and order ---------------------------------------------------

  /** An integer of any kind becomes the 64-bit number equal to it modulo 2^64, itself when it is
      below 2^63. */
  lemma {:induction false} IntegersKept(kind: IntKind, n: int, next: nat)
    requires InRange(kind, n)
    ensures var node := Encode(Integer(kind, n), next);
            && node.Int64Node? && -0x8000_0000_0000_0000 <= node.n < 0x8000_0000_0000_0000
            && (node.n - n) % 0x1_0000_0000_0000_0000 == 0
            && (n < 0x8000_0000_0000_0000 ==> node.n == n)
  {
  }

  /** Flags are 1 and 0, and every flag other than 0 is true. */
  lemma {:induction false} FlagsKept(next: nat, f: nat)
    ensures Encode(Bool(true), next) == FlagNode(1) && Encode(Bool(false), next) == FlagNode(0)
    ensures Decode(FlagNode(f)) == Bool(f >= 1)
  {
  }

  function Joined(a: Text, b: Text): Text {
    match a
    case End => b
    case Char(unit, rest) => Char(unit, Joined(rest, b))
  }

  /** What is cut off begins with a NUL, and what is left has none. */
  lemma {:induction false} CutIsPrefix(t: Text) returns (rest: Text)
    ensures t == Joined(CString(t), rest) && !HasNul(CString(t))
    ensures rest == End || (rest.Char? && rest.unit == 0)
  {
    rest := t;
    if t.Char? && t.unit != 0 {
      rest := CutIsPrefix(t.rest);
    }
  }

  /** Keys are ordered by their first difference, and a key before its extensions. */
  lemma {:induction false} LessByFirstDifference(t: Text, p: nat, x: Text, q: nat, y: Text)
    ensures p != q ==> (Less(Joined(t, Char(p, x)), Joined(t, Char(q, y))) <==> p < q)
    ensures Less(t, Joined(t, Char(p, x))) && Joined(t, End) == t
  {
    if t.Char? {
      LessByFirstDifference(t.rest, p, x, q, y);
    }
  }

  /** Items keep their order: each is encoded in its own place. */
  lemma {:induction false} EncodedInOrder(items: seq<Variant>, next: nat, i: nat)
    requires i < |items|
    ensures |EncodeAll(items, next)| == |items|
            && EncodeAll(items, next)[i] == Encode(items[i], next + SizeAll(items[..i]))
  {
    EncodedAllLength(items, next);
    EncodedAllLength(items[..|items| - 1], next);
    if i < |items| - 1 {
      EncodedInOrder(items[..|items| - 1], next, i);
      assert items[..|items| - 1][..i] == items[..i];
    }
  }

  lemma {:induction false} EncodedEntriesInOrder(entries: seq<Entry>, next: nat, i: nat)
    requires i < |entries|
    ensures var at := next + SizeEntries(entries[..i]);
            && |EncodeEntries(entries, next)| == |entries|
            && EncodeEntries(entries, next)[i] == Slot(at, CString(entries[i].key), Encode(entries[i].value, at + 1))
  {
    EncodedLength(entries, next);
    EncodedLength(entries[..|entries| - 1], next);
    if i < |entries| - 1 {
      EncodedEntriesInOrder(entries[..|entries| - 1], next, i);
      assert entries[..|entries| - 1][..i] == entries[..i];
    }
  }

  lemma {:induction false} DecodedInOrder(nodes: seq<Node>, i: nat)
    requires i < |nodes|
    ensures |DecodeAll(nodes)| == |nodes| && DecodeAll(nodes)[i] == Decode(nodes[i])
    decreases |nodes|
  {
    if i < |nodes| - 1 {
      DecodedInOrder(nodes[..|nodes| - 1], i);
    } else if |nodes| > 1 {
      DecodedInOrder(nodes[..|nodes| - 1], 0);
    }
  }

  /** The value of the last slot with the key. */
  function LastValue(slots: seq<Slot>, key: Text): Variant {
    if slots == [] then Invalid
    else if slots[|slots| - 1].key == key then Decode(slots[|slots| - 1].value)
    else LastValue(slots[..|slots| - 1], key)
  }

  /** Any map node decodes to a map in which the last slot of a key counts. */
  lemma {:induction false} LastSlotCounts(slots: seq<Slot>, key: Text)
    ensures Lookup(DecodeSlots(slots), key) == LastValue(slots, key)
    decreases |slots|
  {
    if slots != [] {
      var prior, s := slots[..|slots| - 1], slots[|slots| - 1];
      LastSlotCounts(prior, key);
      DecodedMapsAscend(prior);
      InsertUpdatesMap(DecodeSlots(prior), Entry(s.key, Decode(s.value)), key);
    }
  }

  // ----- what arrives ---------------------------------------------------------------

  /** What every value becomes: texts and keys end at their first NUL, so that of entries whose
      keys become equal the last one counts, and the rest becomes normal. */
  function Cut(v: Variant): Variant
    decreases v, 1
  {
    match v
    case Str(t) => Str(CString(t))
    case Integer(_, n) => Integer(LongLong, ToInt64(n))
    case List(_, items) => List(Native, CutAll(items))
    case Map(_, entries) => Map(Native, CutEntries(entries))
    case Opaque => Invalid
    case _ => v
  }

  function CutAll(items: seq<Variant>): seq<Variant>
    decreases items, 0
  {
    if items == [] then [] else CutAll(items[..|items| - 1]) + [Cut(items[|items| - 1])]
  }

  function CutEntries(entries: seq<Entry>): seq<Entry>
    decreases entries, 0
  {
    if entries == [] then [] else Insert(CutEntries(entries[..|entries| - 1]), CutEntry(entries[|entries| - 1]))
  }

  function CutEntry(e: Entry): Entry
    decreases e, 2
  {
    assert e.value < e;
    Entry(CString(e.key), Cut(e.value))
  }

  /** For every tree, whatever it contains, decoding its encoding gives the tree cut at its NULs,
      independent of the addresses. */
  lemma {:induction false} DecodedIsCut(v: Variant, next: nat)
    ensures Decode(Encode(v, next)) == Cut(v)
    decreases v, 1
  {
    match v
    case List(_, items) => DecodedAllIsCut(items, next + 2);
    case Map(_, entries) => DecodedEntriesAreCut(entries, next + 3);
    case _ =>
  }

  lemma {:induction false} DecodedAllIsCut(items: seq<Variant>, next: nat)
    ensures DecodeAll(EncodeAll(items, next)) == CutAll(items)
    decreases items, 0
  {
    if items != [] {
      var prior := items[..|items| - 1];
      DecodedAllIsCut(prior, next);
      DecodedIsCut(items[|items| - 1], next + SizeAll(prior));
      DecodeAllStep(items, next);
    }
  }

  lemma {:induction false} DecodedEntriesAreCut(entries: seq<Entry>, next: nat)
    ensures DecodeSlots(EncodeEntries(entries, next)) == CutEntries(entries)
    decreases entries, 0
  {
    if entries != [] {
      var prior, last := entries[..|entries| - 1], entries[|entries| - 1];
      DecodedEntriesAreCut(prior, next);
      assert last.value < last;
      DecodedIsCut(last.value, next + SizeEntries(prior) + 1);
      DecodedEntryIsCut(entries, next);
    }
  }

  lemma {:induction false} DecodedEntryIsCut(entries: seq<Entry>, next: nat)
    requires entries != []
    requires DecodeSlots(EncodeEntries(entries[..|entries| - 1], next)) == CutEntries(entries[..|entries| - 1])
    requires LastDecoded(entries, next) == CutEntry(entries[|entries| - 1])
    ensures DecodeSlots(EncodeEntries(entries, next)) == CutEntries(entries)
  {
    DecodeSlotsStep(entries, next);
  }

  lemma {:induction false} LessIsTotal(a: Text, b: Text)
    ensures a == b || Less(a, b) || Less(b, a)
    ensures !(Less(a, b) && Less(b, a))
    decreases a
  {
    if a.Char? && b.Char? {
      LessIsTotal(a.rest, b.rest);
    }
  }

  /** The value of a key, searched from the end. */
  function Lookup(entries: seq<Entry>, key: Text): Variant {
    if entries == [] then Invalid
    else if entries[|entries| - 1].key == key then entries[|entries| - 1].value
    else Lookup(entries[..|entries| - 1], key)
  }

  /** The key an insertion leaves at the end. */
  lemma {:induction false} InsertLast(entries: seq<Entry>, e: Entry)
    ensures var after := Insert(entries, e);
            && after != []
            && after[|after| - 1].key == (if entries != [] && !Less(entries[|entries| - 1].key, e.key)
                                          && entries[|entries| - 1].key != e.key
                                          then entries[|entries| - 1].key else e.key)
  {
  }

  lemma {:induction false} AscendingAppend(entries: seq<Entry>, e: Entry)
    requires Ascending(entries) && (entries == [] || Less(entries[|entries| - 1].key, e.key))
    ensures Ascending(entries + [e])
  {
    assert (entries + [e])[..|entries + [e]| - 1] == entries;
  }

  /** Insertion keeps a map in strict order ... */
  lemma {:induction false} InsertKeepsOrder(entries: seq<Entry>, e: Entry)
    requires Ascending(entries)
    ensures Ascending(Insert(entries, e))
    decreases |entries|
  {
    if entries == [] {
      AscendingAppend([], e);
    } else {
      var prior, last := entries[..|entries| - 1], entries[|entries| - 1];
      if last.key == e.key {
        AscendingAppend(prior, e);
      } else if Less(last.key, e.key) {
        AscendingAppend(entries, e);
      } else {
        InsertKeepsOrder(prior, e);
        InsertLast(prior, e);
        LessIsTotal(last.key, e.key);
        AscendingAppend(Insert(prior, e), last);
      }
    }
  }

  /** ... puts the new value under its key, and leaves every other key as it was. */
  lemma {:induction false} InsertUpdatesMap(entries: seq<Entry>, e: Entry, key: Text)
    requires Ascending(entries)
    ensures Lookup(Insert(entries, e), key) == if key == e.key then e.value else Lookup(entries, key)
    decreases |entries|
  {
    var after := Insert(entries, e);
    if entries == [] {
      assert after[..0] == [];
    } else {
      var prior, last := entries[..|entries| - 1], entries[|entries| - 1];
      if last.key == e.key {
        assert after[..|after| - 1] == prior;
      } else if Less(last.key, e.key) {
        assert after[..|after| - 1] == entries;
      } else {
        InsertUpdatesMap(prior, e, key);
        assert after[..|after| - 1] == Insert(prior, e);
      }
    }
  }

  /** Whatever node arrives, its maps decode to maps in order. */
  lemma {:induction false} DecodedMapsAscend(slots: seq<Slot>)
    ensures Ascending(DecodeSlots(slots))
    decreases |slots|
  {
    if slots != [] {
      var prior, s := slots[..|slots| - 1], slots[|slots| - 1];
      DecodedMapsAscend(prior);
      assert s.value < s;
      InsertKeepsOrder(DecodeSlots(prior), Entry(s.key, Decode(s.value)));
    }
  }

  lemma {:induction false} NormalKeepsKeys(entries: seq<Entry>)
    ensures |NormalEntries(entries)| == |entries| && (NulFreeKeys(NormalEntries(entries)) <==> NulFreeKeys(entries))
  {
    if entries != [] {
      var all, prior := NormalEntries(entries), NormalEntries(entries[..|entries| - 1]);
      NormalKeepsKeys(entries[..|entries| - 1]);
      assert all[..|all| - 1] == prior;
    }
  }

  lemma {:induction false} InsertKeepsKeysNulFree(entries: seq<Entry>, e: Entry)
    requires NulFreeKeys(entries) && !HasNul(e.key)
    ensures NulFreeKeys(Insert(entries, e))
    decreases |entries|
  {
    var after := Insert(entries, e);
    if entries == [] {
      assert after[..0] == [];
    } else {
      var prior, last := entries[..|entries| - 1], entries[|entries| - 1];
      InsertKeepsKeysNulFree(prior, e);
      if last.key == e.key {
        assert after[..|after| - 1] == prior;
      } else if Less(last.key, e.key) {
        assert after[..|after| - 1] == entries;
      } else {
        assert after[..|after| - 1] == Insert(prior, e);
      }
    }
  }

  lemma {:induction false} CutKeysAreNulFree(entries: seq<Entry>)
    ensures NulFreeKeys(CutEntries(entries))
    decreases |entries|
  {
    if entries != [] {
      var prior, last := entries[..|entries| - 1], entries[|entries| - 1];
      CutKeysAreNulFree(prior);
      CStringFacts(last.key);
      InsertKeepsKeysNulFree(CutEntries(prior), CutEntry(last));
    }
  }

  lemma {:induction false} AppendsEqual<T>(a: seq<T>, x: T, b: seq<T>, y: T)
    requires |a| == |b|
    ensures a + [x] == b + [y] <==> a == b && x == y
  {
    assert (a + [x])[..|a|] == a && (b + [y])[..|b|] == b;
    assert (a + [x])[|a|] == x && (b + [y])[|b|] == y;
  }

  /** Cutting at NULs leaves exactly the plain values in their normal form. */
  lemma {:induction false} CutIsNormal(v: Variant)
    requires Exists(v)
    ensures Cut(v) == Normal(v) <==> Plain(v)
    decreases v, 1
  {
    match v
    case Str(t) => CStringFacts(t);
    case List(_, items) => CutAllIsNormal(items);
    case Map(_, entries) => CutMapIsNormal(entries);
    case _ =>
  }

  lemma {:induction false} CutAllIsNormal(items: seq<Variant>)
    requires ExistAll(items)
    ensures CutAll(items) == NormalAll(items) <==> PlainAll(items)
    ensures |CutAll(items)| == |items| == |NormalAll(items)|
    decreases items, 0
  {
    if items != [] {
      var prior, last := items[..|items| - 1], items[|items| - 1];
      CutAllIsNormal(prior);
      CutIsNormal(last);
      AppendsEqual(CutAll(prior), Cut(last), NormalAll(prior), Normal(last));
    }
  }

  lemma {:induction false} CutMapIsNormal(entries: seq<Entry>)
    requires Ascending(entries) && ExistEntries(entries)
    ensures CutEntries(entries) == NormalEntries(entries) <==> NulFreeKeys(entries) && PlainEntries(entries)
    decreases entries, 1
  {
    if NulFreeKeys(entries) {
      CutEntriesAreNormal(entries);
    } else {
      CutKeysAreNulFree(entries);
      NormalKeepsKeys(entries);
    }
  }

  lemma {:induction false} CutEntriesAreNormal(entries: seq<Entry>)
    requires Ascending(entries) && NulFreeKeys(entries) && ExistEntries(entries)
    ensures CutEntries(entries) == NormalEntries(entries) <==> PlainEntries(entries)
    decreases entries, 0
  {
    if entries != [] {
      var prior, last := entries[..|entries| - 1], entries[|entries| - 1];
      CutEntriesAreNormal(prior);
      assert last.value < last;
      CutIsNormal(last.value);
      PlainCutsDiffer(entries);
      CutGrows(entries);
      NormalKeepsKeys(prior);
      CStringFacts(last.key);
      AppendsEqual(CutEntries(prior), CutEntry(last), NormalEntries(prior), Entry(last.key, Normal(last.value)));
    }
  }

  /** The codec returns the normal form of a value, with its numbers, exactly when no string and no
      key in it contains a NUL and every integer is below 2^63. */
  lemma {:induction false} RoundTrip(v: Variant, next: nat)
    requires Exists(v)
    ensures Decode(Encode(v, next)) == Normal(v) <==> Plain(v)
  {
    DecodedIsCut(v, next);
    CutIsNormal(v);
  }

  lemma {:induction false} RoundTripAll(items: seq<Variant>, next: nat)
    requires ExistAll(items)
    ensures DecodeAll(EncodeAll(items, next)) == NormalAll(items) <==> PlainAll(items)
  {
    DecodedAllIsCut(items, next);
    CutAllIsNormal(items);
  }

  lemma {:induction false} RoundTripEntries(entries: seq<Entry>, next: nat)
    requires Ascending(entries) && ExistEntries(entries)
    ensures DecodeSlots(EncodeEntries(entries, next)) == NormalEntries(entries)
            <==> NulFreeKeys(entries) && PlainEntries(entries)
  {
    DecodedEntriesAreCut(entries, next);
    CutMapIsNormal(entries);
  }

  lemma {:induction false} NormalKeepsSize(v: Variant)
    ensures Size(Normal(v)) == Size(v)
    decreases v, 1
  {
    match v
    case List(_, items) => NormalAllKeepsSize(items);
    case Map(_, entries) => NormalEntriesKeepSize(entries);
    case _ =>
  }

  lemma {:induction false} NormalAllKeepsSize(items: seq<Variant>)
    ensures SizeAll(NormalAll(items)) == SizeAll(items)
    decreases items, 0
  {
    if items != [] {
      var prior, all := items[..|items| - 1], NormalAll(items);
      NormalAllKeepsSize(prior);
      NormalKeepsSize(items[|items| - 1]);
      assert all[..|all| - 1] == NormalAll(prior);
    }
  }

  lemma {:induction false} NormalEntriesKeepSize(entries: seq<Entry>)
    ensures SizeEntries(NormalEntries(entries)) == SizeEntries(entries)
    decreases entries, 0
  {
    if entries != [] {
      var prior, all := entries[..|entries| - 1], NormalEntries(entries);
      NormalEntriesKeepSize(prior);
      assert entries[|entries| - 1].value < entries[|entries| - 1];
      NormalKeepsSize(entries[|entries| - 1].value);
      assert all[..|all| - 1] == NormalEntries(prior);
    }
  }

  lemma {:induction false} EncodeAppend(items: seq<Variant>, v: Variant, next: nat)
    ensures EncodeAll(items + [v], next) == EncodeAll(items, next) + [Encode(v, next + SizeAll(items))]
  {
    var all := items + [v];
    assert all[..|all| - 1] == items;
  }

  lemma {:induction false} EncodeAppendEntry(entries: seq<Entry>, e: Entry, next: nat)
    ensures var at := next + SizeEntries(entries);
            EncodeEntries(entries + [e], next)
            == EncodeEntries(entries, next) + [Slot(at, CString(e.key), Encode(e.value, at + 1))]
  {
    var all := entries + [e];
    assert all[..|all| - 1] == entries;
  }

  /** Encoding does not distinguish a value from its normal form. */
  lemma {:induction false} NormalEncodesTheSame(v: Variant, next: nat)
    requires Exists(v)
    ensures Encode(Normal(v), next) == Encode(v, next)
    decreases v, 1
  {
    match v
    case List(_, items) => NormalAllEncodesTheSame(items, next + 2);
    case Map(_, entries) => NormalEntriesEncodeTheSame(entries, next + 3);
    case _ =>
  }

  lemma {:induction false} AppendEncodesTheSame(items: seq<Variant>, v: Variant, others: seq<Variant>, w: Variant,
                                                next: nat)
    requires EncodeAll(items, next) == EncodeAll(others, next) && SizeAll(items) == SizeAll(others)
    requires Encode(v, next + SizeAll(items)) == Encode(w, next + SizeAll(items))
    ensures EncodeAll(items + [v], next) == EncodeAll(others + [w], next)
  {
    EncodeAppend(items, v, next);
    EncodeAppend(others, w, next);
  }

  /** The same with the second list given whole. */
  lemma {:induction false} LastEncodesTheSame(again: seq<Variant>, v: Variant, items: seq<Variant>, next: nat)
    requires items != [] && EncodeAll(again, next) == EncodeAll(items[..|items| - 1], next)
    requires SizeAll(again) == SizeAll(items[..|items| - 1])
    requires Encode(v, next + SizeAll(again)) == Encode(items[|items| - 1], next + SizeAll(again))
    ensures EncodeAll(again + [v], next) == EncodeAll(items, next)
  {
    var prior, last := items[..|items| - 1], items[|items| - 1];
    assert prior + [last] == items;
    AppendEncodesTheSame(again, v, prior, last, next);
  }

  lemma {:induction false} NormalAllEncodesTheSame(items: seq<Variant>, next: nat)
    requires ExistAll(items)
    ensures EncodeAll(NormalAll(items), next) == EncodeAll(items, next)
    decreases items, 0
  {
    if items != [] {
      var prior, last := items[..|items| - 1], items[|items| - 1];
      NormalAllEncodesTheSame(prior, next);
      NormalAllKeepsSize(prior);
      NormalEncodesTheSame(last, next + SizeAll(prior));
      LastEncodesTheSame(NormalAll(prior), Normal(last), items, next);
    }
  }

  lemma {:induction false} NormalEntriesEncodeTheSame(entries: seq<Entry>, next: nat)
    requires ExistEntries(entries)
    ensures EncodeEntries(NormalEntries(entries), next) == EncodeEntries(entries, next)
    decreases entries, 0
  {
    if entries != [] {
      var prior, last := entries[..|entries| - 1], entries[|entries| - 1];
      NormalEntriesEncodeTheSame(prior, next);
      NormalEntriesKeepSize(prior);
      assert last.value < last;
      NormalEncodesTheSame(last.value, next + SizeEntries(prior) + 1);
      EncodeAppendEntry(NormalEntries(prior), Entry(last.key, Normal(last.value)), next);
    }
  }

  // ----- encoding what was decoded -----------------------------------------------------

  /** Neighbouring keys differ even up to their first NUL. */
  predicate CutsDiffer(entries: seq<Entry>) {
    |entries| <= 1
    || (CutsDiffer(entries[..|entries| - 1])
        && CString(entries[|entries| - 2].key) != CString(entries[|entries| - 1].key))
  }

  /** In no map of the tree do two keys agree up to their first NUL. */
  predicate Distinct(v: Variant)
    decreases v, 1
  {
    match v
    case List(_, items) => DistinctAll(items)
    case Map(_, entries) => CutsDiffer(entries) && DistinctEntries(entries)
    case _ => true
  }

  predicate DistinctAll(items: seq<Variant>)
    decreases items, 0
  {
    items == [] || (DistinctAll(items[..|items| - 1]) && Distinct(items[|items| - 1]))
  }

  predicate DistinctEntries(entries: seq<Entry>)
    decreases entries, 0
  {
    if entries == [] then true
    else
      var last := entries[|entries| - 1];
      assert last.value < last;
      DistinctEntries(entries[..|entries| - 1]) && Distinct(last.value)
  }

  lemma {:induction false} LessIsTransitive(a: Text, b: Text, c: Text)
    requires Less(a, b) && Less(b, c)
    ensures Less(a, c)
    decreases a
  {
    if a.Char? && b.Char? && c.Char? && a.unit == b.unit == c.unit {
      LessIsTransitive(a.rest, b.rest, c.rest);
    }
  }

  /** Cutting keeps the order of keys, but may make them equal. */
  lemma {:induction false} CutsKeepOrder(a: Text, b: Text)
    requires Less(a, b)
    ensures CString(a) == CString(b) || Less(CString(a), CString(b))
    decreases a
  {
    if a.Char? && b.Char? && a.unit == b.unit {
      CutsKeepOrder(a.rest, b.rest);
    }
  }

  /** In an ordered map neighbours decide for all: each cut key is below all later ones. */
  lemma {:induction false} CutsDifferMeansNoClash(entries: seq<Entry>)
    requires Ascending(entries)
    ensures CutsDiffer(entries)
            <==> forall i, j :: 0 <= i < j < |entries| ==> CString(entries[i].key) != CString(entries[j].key)
    ensures CutsDiffer(entries)
            ==> forall i :: 0 <= i < |entries| - 1 ==>
                  Less(CString(entries[i].key), CString(entries[|entries| - 1].key))
    decreases |entries|
  {
    if |entries| > 1 {
      var prior, last := entries[..|entries| - 1], entries[|entries| - 1];
      var near := entries[|entries| - 2];
      CutsDifferMeansNoClash(prior);
      CutsKeepOrder(near.key, last.key);
      if CutsDiffer(entries) {
        forall i | 0 <= i < |entries| - 1
          ensures Less(CString(entries[i].key), CString(last.key))
        {
          if i < |entries| - 2 {
            LessIsTransitive(CString(entries[i].key), CString(near.key), CString(last.key));
          }
        }
        LessIsStrict(CString(last.key));
      }
    }
  }

  lemma {:induction false} EncodedLength(entries: seq<Entry>, next: nat)
    ensures |EncodeEntries(entries, next)| == |entries|
  {
    if entries != [] {
      EncodedLength(entries[..|entries| - 1], next);
    }
  }

  lemma {:induction false} EncodedAllLength(items: seq<Variant>, next: nat)
    ensures |EncodeAll(items, next)| == |items|
  {
    if items != [] {
      EncodedAllLength(items[..|items| - 1], next);
    }
  }

  lemma {:induction false} AllAppend(items: seq<Variant>, v: Variant)
    ensures DistinctAll(items + [v]) <==> DistinctAll(items) && Distinct(v)
    ensures SizeAll(items + [v]) == SizeAll(items) + Size(v)
  {
    assert (items + [v])[..|items + [v]| - 1] == items;
  }

  lemma {:induction false} EntriesAppend(entries: seq<Entry>, e: Entry)
    ensures DistinctEntries(entries + [e]) <==> DistinctEntries(entries) && Distinct(e.value)
    ensures CutsDiffer(entries + [e]) ==> CutsDiffer(entries)
    ensures SizeEntries(entries + [e]) == SizeEntries(entries) + 1 + Size(e.value)
  {
    assert (entries + [e])[..|entries + [e]| - 1] == entries;
    assert e.value < e;
  }

  /** Two lists are encoded alike exactly when they are without their last items and these are,
      if lists that are encoded alike need as many blocks. */
  lemma {:induction false} AppendSame(items: seq<Variant>, v: Variant, others: seq<Variant>, w: Variant, next: nat)
    requires |items| == |others|
    requires EncodeAll(items, next) == EncodeAll(others, next) ==> SizeAll(items) == SizeAll(others)
    ensures EncodeAll(items + [v], next) == EncodeAll(others + [w], next)
            <==> EncodeAll(items, next) == EncodeAll(others, next)
                 && Encode(v, next + SizeAll(others)) == Encode(w, next + SizeAll(others))
  {
    EncodeAppend(items, v, next);
    EncodeAppend(others, w, next);
    EncodedAllLength(items, next);
    EncodedAllLength(others, next);
    AppendsEqual(EncodeAll(items, next), Encode(v, next + SizeAll(items)),
                 EncodeAll(others, next), Encode(w, next + SizeAll(others)));
  }

  lemma {:induction false} AppendSameEntry(entries: seq<Entry>, e: Entry, others: seq<Entry>, f: Entry, next: nat)
    requires |entries| == |others| && CString(e.key) == CString(f.key)
    requires EncodeEntries(entries, next) == EncodeEntries(others, next) ==> SizeEntries(entries) == SizeEntries(others)
    ensures var at := next + SizeEntries(others) + 1;
            EncodeEntries(entries + [e], next) == EncodeEntries(others + [f], next)
            <==> EncodeEntries(entries, next) == EncodeEntries(others, next)
                 && Encode(e.value, at) == Encode(f.value, at)
  {
    var here, there := next + SizeEntries(entries), next + SizeEntries(others);
    EncodeAppendEntry(entries, e, next);
    EncodeAppendEntry(others, f, next);
    EncodedLength(entries, next);
    EncodedLength(others, next);
    AppendsEqual(EncodeEntries(entries, next), Slot(here, CString(e.key), Encode(e.value, here + 1)),
                 EncodeEntries(others, next), Slot(there, CString(f.key), Encode(f.value, there + 1)));
  }

  /** Insertion of a key that is not below the last one. */
  lemma {:induction false} InsertAtEnd(entries: seq<Entry>, e: Entry)
    requires entries != [] && (entries[|entries| - 1].key == e.key || Less(entries[|entries| - 1].key, e.key))
    ensures var after := Insert(entries, e);
            && (if entries[|entries| - 1].key == e.key then |after| == |entries| else after == entries + [e])
            && after[|after| - 1] == e
  {
  }

  /** The entries `d` are as many as `entries` exactly when all cut keys differ, and end alike. */
  ghost predicate CutShape(d: seq<Entry>, entries: seq<Entry>)
    requires entries != []
  {
    && 0 < |d| <= |entries| && d[|d| - 1].key == CString(entries[|entries| - 1].key)
    && (|d| == |entries| <==> CutsDiffer(entries))
  }

  /** A map keeps an entry per different cut key. */
  lemma {:induction false} CutLength(entries: seq<Entry>)
    requires entries != [] && Ascending(entries)
    ensures CutShape(CutEntries(entries), entries)
    decreases |entries|
  {
    if |entries| > 1 {
      CutLength(entries[..|entries| - 1]);
      CutLengthStep(entries, CutEntries(entries[..|entries| - 1]));
    }
  }

  lemma {:induction false} CutLengthStep(entries: seq<Entry>, d: seq<Entry>)
    requires |entries| > 1 && Ascending(entries) && CutShape(d, entries[..|entries| - 1])
    ensures CutShape(Insert(d, CutEntry(entries[|entries| - 1])), entries)
    ensures CutsDiffer(entries)
            ==> Insert(d, CutEntry(entries[|entries| - 1])) == d + [CutEntry(entries[|entries| - 1])]
  {
    CutsKeepOrder(entries[|entries| - 2].key, entries[|entries| - 1].key);
    InsertAtEnd(d, CutEntry(entries[|entries| - 1]));
  }

  /** `again` is encoded like `v`, and needs as many blocks, exactly when `v` is distinct. */
  ghost predicate Same(again: Variant, v: Variant, next: nat) {
    && (Encode(again, next) == Encode(v, next) <==> Distinct(v))
    && (Distinct(v) ==> Size(again) == Size(v))
  }

  ghost predicate AllSame(again: seq<Variant>, items: seq<Variant>, next: nat) {
    && (EncodeAll(again, next) == EncodeAll(items, next) <==> DistinctAll(items))
    && (DistinctAll(items) ==> SizeAll(again) == SizeAll(items))
  }

  ghost predicate EntriesSame(again: seq<Entry>, entries: seq<Entry>, next: nat) {
    var distinct := CutsDiffer(entries) && DistinctEntries(entries);
    && (EncodeEntries(again, next) == EncodeEntries(entries, next) <==> distinct)
    && (distinct ==> SizeEntries(again) == SizeEntries(entries))
  }

  lemma {:induction false} AllSameAppend(again: seq<Variant>, v: Variant, items: seq<Variant>, w: Variant, next: nat)
    requires |again| == |items| && AllSame(again, items, next) && Same(v, w, next + SizeAll(items))
    ensures AllSame(again + [v], items + [w], next)
  {
    AppendSame(again, v, items, w, next);
    AllAppend(again, v);
    AllAppend(items, w);
  }

  lemma {:induction false} EntriesSameAppend(again: seq<Entry>, e: Entry, entries: seq<Entry>, f: Entry, next: nat)
    requires |again| == |entries| && EntriesSame(again, entries, next) && CutsDiffer(entries + [f])
    requires CString(e.key) == CString(f.key) && Same(e.value, f.value, next + SizeEntries(entries) + 1)
    ensures EntriesSame(again + [e], entries + [f], next)
  {
    AppendSameEntry(again, e, entries, f, next);
    EntriesAppend(again, e);
    EntriesAppend(entries, f);
  }

  lemma {:induction false} Reencoding(v: Variant, next: nat)
    requires Exists(v)
    ensures Same(Cut(v), v, next)
    decreases v, 1
  {
    match v
    case Str(t) =>
      CStringFacts(t);
      CStringFacts(CString(t));
    case List(_, items) => ReencodingAll(items, next + 2);
    case Map(_, entries) => ReencodingEntries(entries, next + 3);
    case _ =>
  }

  lemma {:induction false} ReencodingAll(items: seq<Variant>, next: nat)
    requires ExistAll(items)
    ensures AllSame(CutAll(items), items, next) && |CutAll(items)| == |items|
    decreases items, 0
  {
    if items != [] {
      var prior, last := items[..|items| - 1], items[|items| - 1];
      ReencodingAll(prior, next);
      Reencoding(last, next + SizeAll(prior));
      AllSameAppend(CutAll(prior), Cut(last), prior, last, next);
      assert prior + [last] == items;
    }
  }

  lemma {:induction false} ReencodingEntries(entries: seq<Entry>, next: nat)
    requires Ascending(entries) && ExistEntries(entries)
    ensures EntriesSame(CutEntries(entries), entries, next)
    decreases entries, 0
  {
    if entries != [] {
      var prior, last := entries[..|entries| - 1], entries[|entries| - 1];
      ReencodingEntries(prior, next);
      assert last.value < last;
      Reencoding(last.value, next + SizeEntries(prior) + 1);
      if CutsDiffer(entries) {
        CutGrows(entries);
        MapReencodes(entries, CutEntries(prior), next);
      } else {
        ClashShortens(entries, next);
      }
    }
  }

  lemma {:induction false} ClashShortens(entries: seq<Entry>, next: nat)
    requires Ascending(entries) && !CutsDiffer(entries)
    ensures EntriesSame(CutEntries(entries), entries, next)
  {
    CutLength(entries);
    EncodedLength(CutEntries(entries), next);
    EncodedLength(entries, next);
  }

  /** Keys that stay apart are cut one by one. */
  lemma {:induction false} CutGrows(entries: seq<Entry>)
    requires entries != [] && Ascending(entries) && CutsDiffer(entries)
    ensures CutEntries(entries) == CutEntries(entries[..|entries| - 1]) + [CutEntry(entries[|entries| - 1])]
    ensures |CutEntries(entries[..|entries| - 1])| == |entries| - 1
  {
    if |entries| > 1 {
      var prior := entries[..|entries| - 1];
      CutLength(prior);
      CutLengthStep(entries, CutEntries(prior));
    }
  }

  lemma {:induction false} CutTwice(t: Text)
    ensures CString(CString(t)) == CString(t)
  {
    CStringFacts(t);
    CStringFacts(CString(t));
  }

  lemma {:induction false} MapReencodes(entries: seq<Entry>, again: seq<Entry>, next: nat)
    requires entries != [] && CutsDiffer(entries) && |again| == |entries| - 1
    requires EntriesSame(again, entries[..|entries| - 1], next)
    requires var last := entries[|entries| - 1];
             Same(Cut(last.value), last.value, next + SizeEntries(entries[..|entries| - 1]) + 1)
    ensures EntriesSame(again + [CutEntry(entries[|entries| - 1])], entries, next)
  {
    var prior, last := entries[..|entries| - 1], entries[|entries| - 1];
    assert prior + [last] == entries;
    CutTwice(last.key);
    EntriesSameAppend(again, CutEntry(last), prior, last, next);
  }

  /** Encoding what was decoded yields the same node again if and only if in no map of the tree
      two keys agree up to their first NUL; then it also takes as many blocks. */
  lemma {:induction false} ReencodingIsStable(v: Variant, next: nat)
    requires Exists(v)
    ensures Encode(Decode(Encode(v, next)), next) == Encode(v, next) <==> Distinct(v)
    ensures Distinct(v) ==> Size(Decode(Encode(v, next))) == Size(v)
  {
    DecodedIsCut(v, next);
    Reencoding(v, next);
  }

  /** In particular it does for every plain tree. */
  lemma {:induction false} PlainIsDistinct(v: Variant)
    requires Exists(v) && Plain(v)
    ensures Distinct(v)
    decreases v, 1
  {
    match v
    case List(_, items) => PlainAllDistinct(items);
    case Map(_, entries) =>
      PlainCutsDiffer(entries);
      PlainEntriesDistinct(entries);
    case _ =>
  }

  lemma {:induction false} PlainAllDistinct(items: seq<Variant>)
    requires ExistAll(items) && PlainAll(items)
    ensures DistinctAll(items)
    decreases items, 0
  {
    if items != [] {
      PlainAllDistinct(items[..|items| - 1]);
      PlainIsDistinct(items[|items| - 1]);
    }
  }

  lemma {:induction false} PlainEntriesDistinct(entries: seq<Entry>)
    requires ExistEntries(entries) && PlainEntries(entries)
    ensures DistinctEntries(entries)
    decreases entries, 0
  {
    if entries != [] {
      PlainEntriesDistinct(entries[..|entries| - 1]);
      assert entries[|entries| - 1].value < entries[|entries| - 1];
      PlainIsDistinct(entries[|entries| - 1].value);
    }
  }

  lemma {:induction false} PlainCutsDiffer(entries: seq<Entry>)
    requires Ascending(entries) && NulFreeKeys(entries)
    ensures CutsDiffer(entries)
    decreases |entries|
  {
    if |entries| > 1 {
      var prior := entries[..|entries| - 1];
      PlainCutsDiffer(prior);
      CStringFacts(prior[|prior| - 1].key);
      CStringFacts(entries[|entries| - 1].key);
      LessIsStrict(entries[|entries| - 1].key);
    }
  }
}
