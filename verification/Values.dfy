/**
 Runtime values of the indicator language (indicator-engine/src/types.rs):
 the resource accounting cached in arrays, and the order of mixed numbers.
 */
module Values {
  import opened Basics
  import opened Text

  datatype Number = Finite(r: real) | NonFinite

  datatype Entry = Entry(key: string, keyCapacity: nat, value: Value)

  // `capacity` is the allocated capacity of the vector that holds `values`;
  // the last four fields are the caches the program keeps.
  datatype ArrayValue = ArrayValue(values: seq<Value>, capacity: nat, elements: nat, heapBytes: nat, maxString: nat, depth: nat)

  // A record lists the entries of the program's ordered map in key order.
  datatype Value =
    | Int(i: int)
    | Float(f: Number)
    | Bool(b: bool)
    | Str(text: string, strCapacity: nat)
    | Color(argb: nat)
    | Tuple(items: seq<Value>, tupleCapacity: nat)
    | Array(stored: ArrayValue)
    | Record(entries: seq<Entry>)
    | Na

  datatype Usage = Usage(elements: nat, bytes: nat)

  // Sizes of the program's types on a 64-bit target. No proof depends on them.
  const SIZE_OF_VEC: nat := 24
  const SIZE_OF_STRING: nat := 24
  const SIZE_OF_MAP: nat := 24

  // The bytes of `n` slots for a value, and of `n` entries of a record.
  function ValueSlots(n: nat): nat { 32 * n }

  function EntrySlots(n: nat): nat { 56 * n }

  // ---------------------------------------------------------------------
  // What the program computes, with saturating arithmetic and caches
  // ---------------------------------------------------------------------

  function ContainerBytes(capacity: nat): nat {
    Cap(SIZE_OF_VEC + Cap(ValueSlots(capacity)))
  }

  function ResourceUsage(v: Value): Usage
    decreases v, 1
  {
    match v
    case Str(_, capacity) => Usage(0, Cap(SIZE_OF_STRING + capacity))
    case Tuple(items, capacity) => AddUsages(Usage(Cap(|items|), ContainerBytes(capacity)), items)
    case Array(a) => Usage(a.elements, a.heapBytes)
    case Record(entries) =>
      AddEntryUsages(Usage(Cap(|entries|), Cap(SIZE_OF_MAP + Cap(EntrySlots(|entries|)))), entries)
    case _ => Usage(0, 0)
  }

  function AddUsages(start: Usage, items: seq<Value>): Usage
    decreases items, 0
  {
    if items == [] then start
    else
      var before := AddUsages(start, items[..|items| - 1]);
      var item := ResourceUsage(items[|items| - 1]);
      Usage(Cap(before.elements + item.elements), Cap(before.bytes + item.bytes))
  }

  function AddEntryUsages(start: Usage, entries: seq<Entry>): Usage
    decreases entries, 0
  {
    if entries == [] then start
    else
      var before := AddEntryUsages(start, entries[..|entries| - 1]);
      var entry := entries[|entries| - 1];
      var item := ResourceUsage(entry.value);
      Usage(Cap(before.elements + item.elements),
            Cap(Cap(Cap(before.bytes + SIZE_OF_STRING) + entry.keyCapacity) + item.bytes))
  }

  function NestingDepth(v: Value): nat
    decreases v, 1
  {
    match v
    case Array(a) => a.depth
    case Tuple(items, _) => Cap(MaxNestingDepth(items) + 1)
    case Record(entries) => Cap(MaxEntryNestingDepth(entries) + 1)
    case _ => 0
  }

  function MaxNestingDepth(items: seq<Value>): nat
    decreases items, 0
  {
    if items == [] then 0
    else Max(MaxNestingDepth(items[..|items| - 1]), NestingDepth(items[|items| - 1]))
  }

  function MaxEntryNestingDepth(entries: seq<Entry>): nat
    decreases entries, 0
  {
    if entries == [] then 0
    else Max(MaxEntryNestingDepth(entries[..|entries| - 1]), NestingDepth(entries[|entries| - 1].value))
  }

  // The largest capacity of a string in the value.
  function MaxStringCapacity(v: Value): nat
    decreases v, 1
  {
    match v
    case Str(_, capacity) => capacity
    case Tuple(items, _) => MaxStrings(items)
    case Array(a) => a.maxString
    case Record(entries) => MaxEntryStrings(entries)
    case _ => 0
  }

  function MaxStrings(items: seq<Value>): nat
    decreases items, 0
  {
    if items == [] then 0
    else Max(MaxStrings(items[..|items| - 1]), MaxStringCapacity(items[|items| - 1]))
  }

  function MaxEntryStrings(entries: seq<Entry>): nat
    decreases entries, 0
  {
    if entries == [] then 0
    else
      var entry := entries[|entries| - 1];
      Max(Max(MaxEntryStrings(entries[..|entries| - 1]), entry.keyCapacity), MaxStringCapacity(entry.value))
  }

  function NewArray(values: seq<Value>, capacity: nat): ArrayValue {
    var nested := AddUsages(Usage(0, 0), values);
    ArrayValue(values, capacity,
               Cap(Cap(|values|) + nested.elements),
               Cap(ContainerBytes(capacity) + nested.bytes),
               MaxStrings(values),
               Cap(MaxNestingDepth(values) + 1))
  }

  function PushedArray(a: ArrayValue, value: Value, capacity: nat): ArrayValue {
    var usage := ResourceUsage(value);
    ArrayValue(a.values + [value], capacity,
               Cap(Cap(a.elements + 1) + usage.elements),
               Cap(Cap(a.heapBytes + usage.bytes) + Cap(ValueSlots(SatSub(capacity, a.capacity)))),
               Max(a.maxString, MaxStringCapacity(value)),
               Max(a.depth, Cap(NestingDepth(value) + 1)))
  }

  function ProjectedPushUsage(a: ArrayValue, value: Value): Usage {
    var usage := ResourceUsage(value);
    Usage(Cap(Cap(a.elements + 1) + usage.elements),
          Cap(Cap(a.heapBytes + ValueSlots(1)) + usage.bytes))
  }

  // Cloning reallocates strings, tuples and records at their length, and
  // shares nested arrays, which are reference counted.
  function CloneValue(v: Value): Value
    decreases v, 1
  {
    match v
    case Str(text, _) => Str(text, ByteLength(text))
    case Tuple(items, _) => Tuple(CloneValues(items), |items|)
    case Record(entries) => Record(CloneEntries(entries))
    case _ => v
  }

  function CloneValues(items: seq<Value>): (r: seq<Value>)
    ensures |r| == |items|
    decreases items, 0
  {
    if items == [] then []
    else CloneValues(items[..|items| - 1]) + [CloneValue(items[|items| - 1])]
  }

  function CloneEntries(entries: seq<Entry>): (r: seq<Entry>)
    ensures |r| == |entries|
    decreases entries, 0
  {
    if entries == [] then []
    else
      var entry := entries[|entries| - 1];
      CloneEntries(entries[..|entries| - 1]) + [Entry(entry.key, ByteLength(entry.key), CloneValue(entry.value))]
  }

  function CloneArray(a: ArrayValue): ArrayValue {
    var nestedBytes := SatSub(a.heapBytes, ContainerBytes(a.capacity));
    ArrayValue(CloneValues(a.values), |a.values|,
               a.elements, Cap(ContainerBytes(|a.values|) + nestedBytes), a.maxString, a.depth)
  }

  /** The uniquely owned array that `array.push` updates in place, after
      `Arc::make_mut` has cloned a shared one. */
  class ArrayCell {
    var values: seq<Value>
    var capacity: nat
    var elements: nat
    var heapBytes: nat
    var maxString: nat
    var depth: nat

    function Snapshot(): ArrayValue
      reads this
    {
      ArrayValue(values, capacity, elements, heapBytes, maxString, depth)
    }

    constructor (a: ArrayValue)
      ensures Snapshot() == a
    {
      values, capacity, elements, heapBytes := a.values, a.capacity, a.elements, a.heapBytes;
      maxString, depth := a.maxString, a.depth;
    }

    // `newCapacity` is the vector's capacity after the push, which is the
    // allocator's choice.
    method Push(value: Value, newCapacity: nat)
      modifies this
      ensures Snapshot() == PushedArray(old(Snapshot()), value, newCapacity)
    {
      depth := Max(depth, Cap(NestingDepth(value) + 1));
      var usage := ResourceUsage(value);
      var previousCapacity := capacity;
      values := values + [value];
      capacity := newCapacity;
      var capacityGrowth := Cap(ValueSlots(SatSub(capacity, previousCapacity)));
      elements := Cap(Cap(elements + 1) + usage.elements);
      heapBytes := Cap(Cap(heapBytes + usage.bytes) + capacityGrowth);
      maxString := Max(maxString, MaxStringCapacity(value));
    }
  }

  // ---------------------------------------------------------------------
  // The recount: the same quantities from the tree alone, without caches
  // and without a bound
  // ---------------------------------------------------------------------

  ghost function Elements(v: Value): nat
    decreases v, 1
  {
    match v
    case Tuple(items, _) => |items| + NestedElements(items)
    case Array(a) => |a.values| + NestedElements(a.values)
    case Record(entries) => |entries| + NestedEntryElements(entries)
    case _ => 0
  }

  ghost function NestedElements(items: seq<Value>): nat
    decreases items, 0
  {
    if items == [] then 0 else NestedElements(items[..|items| - 1]) + Elements(items[|items| - 1])
  }

  ghost function NestedEntryElements(entries: seq<Entry>): nat
    decreases entries, 0
  {
    if entries == [] then 0
    else NestedEntryElements(entries[..|entries| - 1]) + Elements(entries[|entries| - 1].value)
  }

  ghost function Depth(v: Value): nat
    decreases v, 1
  {
    match v
    case Tuple(items, _) => 1 + DepthOf(items)
    case Array(a) => 1 + DepthOf(a.values)
    case Record(entries) => 1 + DepthOfEntries(entries)
    case _ => 0
  }

  ghost function DepthOf(items: seq<Value>): nat
    decreases items, 0
  {
    if items == [] then 0 else Max(DepthOf(items[..|items| - 1]), Depth(items[|items| - 1]))
  }

  ghost function DepthOfEntries(entries: seq<Entry>): nat
    decreases entries, 0
  {
    if entries == [] then 0
    else Max(DepthOfEntries(entries[..|entries| - 1]), Depth(entries[|entries| - 1].value))
  }

  ghost function Bytes(v: Value): nat
    decreases v, 1
  {
    match v
    case Str(_, capacity) => SIZE_OF_STRING + capacity
    case Tuple(items, capacity) => SIZE_OF_VEC + ValueSlots(capacity) + BytesOf(items)
    case Array(a) => SIZE_OF_VEC + ValueSlots(a.capacity) + BytesOf(a.values)
    case Record(entries) => SIZE_OF_MAP + EntrySlots(|entries|) + BytesOfEntries(entries)
    case _ => 0
  }

  ghost function BytesOf(items: seq<Value>): nat
    decreases items, 0
  {
    if items == [] then 0 else BytesOf(items[..|items| - 1]) + Bytes(items[|items| - 1])
  }

  ghost function BytesOfEntries(entries: seq<Entry>): nat
    decreases entries, 0
  {
    if entries == [] then 0
    else
      var entry := entries[|entries| - 1];
      BytesOfEntries(entries[..|entries| - 1]) + SIZE_OF_STRING + entry.keyCapacity + Bytes(entry.value)
  }

  ghost function LongestString(v: Value): nat
    decreases v, 1
  {
    match v
    case Str(_, capacity) => capacity
    case Tuple(items, _) => LongestOf(items)
    case Array(a) => LongestOf(a.values)
    case Record(entries) => LongestOfEntries(entries)
    case _ => 0
  }

  ghost function LongestOf(items: seq<Value>): nat
    decreases items, 0
  {
    if items == [] then 0 else Max(LongestOf(items[..|items| - 1]), LongestString(items[|items| - 1]))
  }

  ghost function LongestOfEntries(entries: seq<Entry>): nat
    decreases entries, 0
  {
    if entries == [] then 0
    else
      var entry := entries[|entries| - 1];
      Max(Max(LongestOfEntries(entries[..|entries| - 1]), entry.keyCapacity), LongestString(entry.value))
  }

  // Every array in `v` caches its recount: element count and depth exactly,
  // and heap bytes and string capacity exactly (`exact`) or at least never too low.
  ghost predicate Accounted(v: Value, exact: bool)
    decreases v, 1
  {
    match v
    case Tuple(items, _) => AllAccounted(items, exact)
    case Array(a) =>
      && AllAccounted(a.values, exact)
      && CachesAgree(a, exact)
    case Record(entries) => EntriesAccounted(entries, exact)
    case _ => true
  }

  ghost predicate AllAccounted(items: seq<Value>, exact: bool)
    decreases items, 0
  {
    forall i :: 0 <= i < |items| ==> Accounted(items[i], exact)
  }

  ghost predicate EntriesAccounted(entries: seq<Entry>, exact: bool)
    decreases entries, 0
  {
    forall i :: 0 <= i < |entries| ==> Accounted(entries[i].value, exact)
  }

  ghost predicate CachesAgree(a: ArrayValue, exact: bool) {
    && a.elements == Cap(Elements(Array(a)))
    && a.depth == Cap(Depth(Array(a)))
    && Covers(exact, a.heapBytes, Bytes(Array(a)))
    && CoversString(exact, a.maxString, LongestString(Array(a)))
  }

  // String capacities never saturate.
  ghost predicate CoversString(exact: bool, cached: nat, counted: nat) {
    if exact then cached == counted else cached >= counted
  }

  ghost predicate Covers(exact: bool, cached: nat, counted: nat) {
    if exact then cached == Cap(counted) else Cap(counted) <= cached <= U64_MAX
  }

  // The usage the program reads from the caches is the recount.
  lemma {:induction false} UsageIsRecount(v: Value, exact: bool)
    requires Accounted(v, exact)
    ensures ResourceUsage(v).elements == Cap(Elements(v))
    ensures NestingDepth(v) == Cap(Depth(v))
    ensures Covers(exact, ResourceUsage(v).bytes, Bytes(v))
    decreases v, 1
  {
    hide Covers, AddUsages, AddEntryUsages, CachesAgree;
    match v
    case Tuple(items, capacity) =>
      UsagesAreRecount(|items|, SIZE_OF_VEC + ValueSlots(capacity), items, exact);
    case Record(entries) =>
      EntryUsagesAreRecount(|entries|, SIZE_OF_MAP + EntrySlots(|entries|), entries, exact);
    case Array(a) => CachesAgreeParts(a, exact);
    case Str(_, capacity) => CappedCovers(exact, SIZE_OF_STRING + capacity);
    case _ => CappedCovers(exact, 0);
  }

  lemma CachesAgreeParts(a: ArrayValue, exact: bool)
    requires CachesAgree(a, exact)
    ensures a.elements == Cap(Elements(Array(a))) && a.depth == Cap(Depth(Array(a)))
    ensures Covers(exact, a.heapBytes, Bytes(Array(a)))
  {
  }

  lemma CappedCovers(exact: bool, counted: nat)
    ensures Covers(exact, Cap(counted), counted)
  {
  }

  lemma {:induction false} UsagesAreRecount(elements: nat, bytes: nat, items: seq<Value>, exact: bool)
    requires AllAccounted(items, exact)
    ensures AddUsages(Usage(Cap(elements), Cap(bytes)), items).elements == Cap(elements + NestedElements(items))
    ensures Covers(exact, AddUsages(Usage(Cap(elements), Cap(bytes)), items).bytes, bytes + BytesOf(items))
    ensures MaxNestingDepth(items) == Cap(DepthOf(items))
    decreases items, 0
  {
    if items != [] {
      UsagesAreRecount(elements, bytes, items[..|items| - 1], exact);
      UsageIsRecount(items[|items| - 1], exact);
    }
  }

  lemma {:induction false} EntryUsagesAreRecount(elements: nat, bytes: nat, entries: seq<Entry>, exact: bool)
    requires EntriesAccounted(entries, exact)
    ensures AddEntryUsages(Usage(Cap(elements), Cap(bytes)), entries).elements
         == Cap(elements + NestedEntryElements(entries))
    ensures Covers(exact, AddEntryUsages(Usage(Cap(elements), Cap(bytes)), entries).bytes,
                   bytes + BytesOfEntries(entries))
    ensures MaxEntryNestingDepth(entries) == Cap(DepthOfEntries(entries))
    decreases entries, 0
  {
    if entries != [] {
      EntryUsagesAreRecount(elements, bytes, entries[..|entries| - 1], exact);
      UsageIsRecount(entries[|entries| - 1].value, exact);
    }
  }

  // So is the string capacity.
  lemma {:induction false} StringIsRecount(v: Value, exact: bool)
    requires Accounted(v, exact)
    ensures CoversString(exact, MaxStringCapacity(v), LongestString(v))
    decreases v, 1
  {
    hide CachesAgree;
    match v
    case Tuple(items, _) => StringsAreRecount(items, exact);
    case Record(entries) => EntryStringsAreRecount(entries, exact);
    case Array(a) => CachesCoverString(a, exact);
    case _ =>
  }

  lemma CachesCoverString(a: ArrayValue, exact: bool)
    requires CachesAgree(a, exact)
    ensures CoversString(exact, a.maxString, LongestString(Array(a)))
  {
  }

  lemma {:induction false} StringsAreRecount(items: seq<Value>, exact: bool)
    requires AllAccounted(items, exact)
    ensures CoversString(exact, MaxStrings(items), LongestOf(items))
    decreases items, 0
  {
    if items != [] {
      StringsAreRecount(items[..|items| - 1], exact);
      StringIsRecount(items[|items| - 1], exact);
    }
  }

  lemma {:induction false} EntryStringsAreRecount(entries: seq<Entry>, exact: bool)
    requires EntriesAccounted(entries, exact)
    ensures CoversString(exact, MaxEntryStrings(entries), LongestOfEntries(entries))
    decreases entries, 0
  {
    if entries != [] {
      EntryStringsAreRecount(entries[..|entries| - 1], exact);
      StringIsRecount(entries[|entries| - 1].value, exact);
    }
  }

  lemma NewArrayIsAccounted(values: seq<Value>, capacity: nat, exact: bool)
    requires AllAccounted(values, exact)
    ensures Accounted(Array(NewArray(values, capacity)), exact)
  {
    UsagesAreRecount(0, 0, values, exact);
    StringsAreRecount(values, exact);
    assert CachesAgree(NewArray(values, capacity), exact);
  }

  // A push keeps the caches in step, whatever capacity the allocator picks.
  lemma PushedArrayIsAccounted(a: ArrayValue, value: Value, capacity: nat, exact: bool)
    requires Accounted(Array(a), exact) && Accounted(value, exact)
    requires capacity >= a.capacity
    ensures Accounted(Array(PushedArray(a, value, capacity)), exact)
    ensures Elements(Array(PushedArray(a, value, capacity))) == Elements(Array(a)) + 1 + Elements(value)
    ensures ProjectedPushUsage(a, value).elements == Cap(Elements(Array(a)) + 1 + Elements(value))
    ensures PushedArray(a, value, capacity).heapBytes >= Cap(Bytes(Array(PushedArray(a, value, capacity))))
  {
    hide Accounted, AllAccounted, ResourceUsage, NestingDepth, MaxStringCapacity, Elements, Depth, Bytes, LongestString;
    AccountedParts(a, exact);
    UsageIsRecount(value, exact);
    StringIsRecount(value, exact);
    PushRecount(a, value, capacity);
    var pushed := PushedArray(a, value, capacity);
    AllWithLast(a.values, value, exact);
    AccountedParts(pushed, exact);
  }

  lemma AccountedParts(a: ArrayValue, exact: bool)
    ensures Accounted(Array(a), exact) <==> AllAccounted(a.values, exact) && CachesAgree(a, exact)
  {
    hide CachesAgree;
  }

  lemma AllWithLast(items: seq<Value>, last: Value, exact: bool)
    requires AllAccounted(items, exact) && Accounted(last, exact)
    ensures AllAccounted(items + [last], exact)
  {
  }

  lemma PushRecount(a: ArrayValue, value: Value, capacity: nat)
    requires capacity >= a.capacity
    ensures var pushed := Array(PushedArray(a, value, capacity));
            && Elements(pushed) == Elements(Array(a)) + 1 + Elements(value)
            && Depth(pushed) == Max(Depth(Array(a)), Depth(value) + 1)
            && Bytes(pushed) == Bytes(Array(a)) + Bytes(value) + ValueSlots(capacity - a.capacity)
            && LongestString(pushed) == Max(LongestString(Array(a)), LongestString(value))
  {
    var values := a.values + [value];
    assert values[..|values| - 1] == a.values;
  }

  // ---------------------------------------------------------------------
  // Clone
  // ---------------------------------------------------------------------

  // A vector's slots never fill the address space.
  predicate SlotsFit(capacity: nat) { SIZE_OF_VEC + ValueSlots(capacity) <= U64_MAX }

  // Every vector and string holds no more than its capacity.
  ghost predicate WellSized(v: Value)
    decreases v, 1
  {
    match v
    case Str(text, capacity) => ByteLength(text) <= capacity
    case Tuple(items, capacity) => |items| <= capacity && AllWellSized(items)
    case Array(a) => |a.values| <= a.capacity && SlotsFit(a.capacity) && AllWellSized(a.values)
    case Record(entries) => EntriesWellSized(entries)
    case _ => true
  }

  ghost predicate AllWellSized(items: seq<Value>)
    decreases items, 0
  {
    forall i :: 0 <= i < |items| ==> WellSized(items[i])
  }

  ghost predicate EntriesWellSized(entries: seq<Entry>)
    decreases entries, 0
  {
    forall i :: 0 <= i < |entries| ==> ByteLength(entries[i].key) <= entries[i].keyCapacity && WellSized(entries[i].value)
  }

  // A clone has the same shape and never needs more heap.
  lemma {:induction false} CloneKeepsShape(v: Value, exact: bool)
    requires Accounted(v, exact) && WellSized(v)
    ensures Accounted(CloneValue(v), exact) && WellSized(CloneValue(v))
    ensures Elements(CloneValue(v)) == Elements(v)
    ensures Depth(CloneValue(v)) == Depth(v)
    ensures Bytes(CloneValue(v)) <= Bytes(v)
    decreases v, 1
  {
    match v
    case Tuple(items, capacity) =>
      ClonesKeepShape(items, exact);
    case Record(entries) => EntryClonesKeepShape(entries, exact);
    case _ =>
  }

  lemma {:induction false} ClonesKeepShape(items: seq<Value>, exact: bool)
    requires AllAccounted(items, exact) && AllWellSized(items)
    ensures AllAccounted(CloneValues(items), exact) && AllWellSized(CloneValues(items))
    ensures NestedElements(CloneValues(items)) == NestedElements(items)
    ensures DepthOf(CloneValues(items)) == DepthOf(items)
    ensures BytesOf(CloneValues(items)) <= BytesOf(items)
    decreases items, 0
  {
    hide CloneValue, Accounted, WellSized, Elements, Depth, Bytes;
    if items != [] {
      var front := items[..|items| - 1];
      ClonesKeepShape(front, exact);
      CloneKeepsShape(items[|items| - 1], exact);
      var clones := CloneValues(items);
      assert clones[..|clones| - 1] == CloneValues(front);
    }
  }

  lemma {:induction false} EntryClonesKeepShape(entries: seq<Entry>, exact: bool)
    requires EntriesAccounted(entries, exact) && EntriesWellSized(entries)
    ensures EntriesAccounted(CloneEntries(entries), exact) && EntriesWellSized(CloneEntries(entries))
    ensures NestedEntryElements(CloneEntries(entries)) == NestedEntryElements(entries)
    ensures DepthOfEntries(CloneEntries(entries)) == DepthOfEntries(entries)
    ensures BytesOfEntries(CloneEntries(entries)) <= BytesOfEntries(entries)
    decreases entries, 0
  {
    hide CloneValue, Accounted, WellSized, Elements, Depth, Bytes, EntriesAccounted, EntriesWellSized;
    if entries == [] {
      EntriesParts([], exact);
    } else {
      var front, last := entries[..|entries| - 1], entries[|entries| - 1];
      EntriesParts(entries, exact);
      EntryClonesKeepShape(front, exact);
      CloneKeepsShape(last.value, exact);
      var clones := CloneEntries(entries);
      assert clones[..|clones| - 1] == CloneEntries(front);
      EntriesParts(clones, exact);
    }
  }

  lemma EntriesParts(entries: seq<Entry>, exact: bool)
    ensures entries == [] ==> EntriesAccounted(entries, exact) && EntriesWellSized(entries)
    ensures entries != [] ==>
              var front, last := entries[..|entries| - 1], entries[|entries| - 1];
              && (EntriesAccounted(entries, exact) <==> EntriesAccounted(front, exact) && Accounted(last.value, exact))
              && (EntriesWellSized(entries)
                  <==> EntriesWellSized(front) && ByteLength(last.key) <= last.keyCapacity && WellSized(last.value))
  {
    hide Accounted, WellSized;
    if entries != [] {
      var front, last := entries[..|entries| - 1], entries[|entries| - 1];
      assert entries == front + [last];
    }
  }

  // Nor a longer string.
  lemma {:induction false} CloneIsNoLonger(v: Value)
    requires WellSized(v)
    ensures LongestString(CloneValue(v)) <= LongestString(v)
    decreases v, 1
  {
    match v
    case Tuple(items, capacity) => ClonesAreNoLonger(items);
    case Record(entries) => EntryClonesAreNoLonger(entries);
    case _ =>
  }

  lemma {:induction false} ClonesAreNoLonger(items: seq<Value>)
    requires AllWellSized(items)
    ensures LongestOf(CloneValues(items)) <= LongestOf(items)
    decreases items, 0
  {
    if items != [] {
      ClonesAreNoLonger(items[..|items| - 1]);
      CloneIsNoLonger(items[|items| - 1]);
      var clones := CloneValues(items);
      assert clones[..|clones| - 1] == CloneValues(items[..|items| - 1]);
    }
  }

  lemma {:induction false} EntryClonesAreNoLonger(entries: seq<Entry>)
    requires EntriesWellSized(entries)
    ensures LongestOfEntries(CloneEntries(entries)) <= LongestOfEntries(entries)
    decreases entries, 0
  {
    if entries != [] {
      EntryClonesAreNoLonger(entries[..|entries| - 1]);
      CloneIsNoLonger(entries[|entries| - 1].value);
      var clones := CloneEntries(entries);
      assert clones[..|clones| - 1] == CloneEntries(entries[..|entries| - 1]);
    }
  }

  // The same value in other buffers: numbers, texts, keys and items in their
  // order. A nested array is shared, so it is the same one.
  ghost predicate SameValue(v: Value, w: Value)
    decreases v, 1
  {
    match v
    case Str(text, _) => w.Str? && w.text == text
    case Tuple(items, _) => w.Tuple? && SameValues(items, w.items)
    case Record(entries) => w.Record? && SameEntries(entries, w.entries)
    case _ => w == v
  }

  ghost predicate SameValues(items: seq<Value>, others: seq<Value>)
    decreases items, 0
  {
    |items| == |others| && forall i :: 0 <= i < |items| ==> SameValue(items[i], others[i])
  }

  ghost predicate SameEntries(entries: seq<Entry>, others: seq<Entry>)
    decreases entries, 0
  {
    |entries| == |others| && forall i :: 0 <= i < |entries| ==> SameEntry(entries[i], others[i])
  }

  ghost predicate SameEntry(entry: Entry, other: Entry)
    decreases entry, 2
  {
    entry.key == other.key && SameValue(entry.value, other.value)
  }

  // No buffer has anything to spare, outside of shared arrays.
  ghost predicate Tight(v: Value)
    decreases v, 1
  {
    match v
    case Str(text, capacity) => capacity == ByteLength(text)
    case Tuple(items, capacity) => capacity == |items| && AllTight(items)
    case Record(entries) => EntriesTight(entries)
    case _ => true
  }

  ghost predicate AllTight(items: seq<Value>)
    decreases items, 0
  {
    forall i :: 0 <= i < |items| ==> Tight(items[i])
  }

  ghost predicate EntriesTight(entries: seq<Entry>)
    decreases entries, 0
  {
    forall i :: 0 <= i < |entries| ==> EntryTight(entries[i])
  }

  ghost predicate EntryTight(entry: Entry)
    decreases entry, 2
  {
    entry.keyCapacity == ByteLength(entry.key) && Tight(entry.value)
  }

  // The clone is the one value that is the same in buffers with nothing to spare.
  lemma {:induction false} CloneIsSame(v: Value, w: Value)
    ensures w == CloneValue(v) <==> SameValue(v, w) && Tight(w)
    decreases v, 1
  {
    match v
    case Tuple(items, _) =>
      ClonesAreSame(items, if w.Tuple? then w.items else []);
    case Record(entries) =>
      EntryClonesAreSame(entries, if w.Record? then w.entries else []);
    case _ =>
  }

  lemma {:induction false} ClonesAreSame(items: seq<Value>, others: seq<Value>)
    ensures others == CloneValues(items) <==> SameValues(items, others) && AllTight(others)
    decreases items, 0
  {
    hide CloneValue, SameValue, Tight;
    if items != [] && |others| == |items| {
      var n := |items| - 1;
      ClonesAreSame(items[..n], others[..n]);
      CloneIsSame(items[n], others[n]);
      assert items == items[..n] + [items[n]] && others == others[..n] + [others[n]];
    }
  }

  lemma {:induction false} EntryClonesAreSame(entries: seq<Entry>, others: seq<Entry>)
    ensures others == CloneEntries(entries) <==> SameEntries(entries, others) && EntriesTight(others)
    decreases entries, 0
  {
    hide CloneValue, CloneEntries, SameEntry, EntryTight;
    if |others| == |entries| {
      forall i: nat | i < |entries|
        ensures others[i] == CloneEntries(entries)[i] <==> SameEntry(entries[i], others[i]) && EntryTight(others[i])
      {
        CloneEntriesAt(entries, i);
        EntryCloneIsSame(entries[i], others[i]);
      }
    }
  }

  lemma {:induction false} CloneEntriesAt(entries: seq<Entry>, i: nat)
    requires i < |entries|
    ensures CloneEntries(entries)[i] == Entry(entries[i].key, ByteLength(entries[i].key), CloneValue(entries[i].value))
    decreases |entries|
  {
    hide CloneValue;
    if i < |entries| - 1 {
      CloneEntriesAt(entries[..|entries| - 1], i);
    }
  }

  lemma {:induction false} EntryCloneIsSame(entry: Entry, other: Entry)
    ensures other == Entry(entry.key, ByteLength(entry.key), CloneValue(entry.value)) <==> SameEntry(entry, other) && EntryTight(other)
    decreases entry, 2
  {
    hide CloneValue;
    CloneIsSame(entry.value, other.value);
  }

  // Bytes that have saturated forget how much of them was nested, and the
  // clone's smaller buffer no longer makes up for it.
  ghost predicate CloneUndercounts(a: ArrayValue) {
    && a.heapBytes == U64_MAX && |a.values| < a.capacity
    && BytesOf(CloneValues(a.values)) > U64_MAX - ContainerBytes(a.capacity)
  }

  // Cloning an array keeps its count and depth exact, and its heap bytes on
  // the safe side exactly when they do not undercount.
  lemma CloneArrayIsAccounted(a: ArrayValue)
    requires Accounted(Array(a), false) && WellSized(Array(a))
    ensures WellSized(Array(CloneArray(a)))
    ensures Elements(Array(CloneArray(a))) == Elements(Array(a))
    ensures Depth(Array(CloneArray(a))) == Depth(Array(a))
    ensures Bytes(Array(CloneArray(a))) <= Bytes(Array(a))
    ensures Accounted(Array(CloneArray(a)), false) <==> !CloneUndercounts(a)
    ensures CloneArray(a).heapBytes < Cap(Bytes(Array(CloneArray(a)))) <==> CloneUndercounts(a)
  {
    ClonesKeepShape(a.values, false);
    ClonesAreNoLonger(a.values);
    CloneBytes(a);
    var clone := CloneArray(a);
    assert CachesAgree(a, false);
    assert Accounted(Array(clone), false) <==> CachesAgree(clone, false);
  }

  lemma CloneBytes(a: ArrayValue)
    requires |a.values| <= a.capacity && SlotsFit(a.capacity)
    requires Cap(Bytes(Array(a))) <= a.heapBytes <= U64_MAX
    requires BytesOf(CloneValues(a.values)) <= BytesOf(a.values)
    ensures CloneArray(a).heapBytes < Cap(Bytes(Array(CloneArray(a)))) <==> CloneUndercounts(a)
  {
    CloneArithmetic(a.heapBytes, a.capacity, |a.values|, BytesOf(a.values), BytesOf(CloneValues(a.values)));
  }

  lemma CloneArithmetic(heap: nat, capacity: nat, length: nat, nested: nat, cloned: nat)
    requires length <= capacity && SlotsFit(capacity)
    requires Cap(SIZE_OF_VEC + ValueSlots(capacity) + nested) <= heap <= U64_MAX && cloned <= nested
    ensures Cap(ContainerBytes(length) + SatSub(heap, ContainerBytes(capacity))) < Cap(SIZE_OF_VEC + ValueSlots(length) + cloned)
       <==> (heap == U64_MAX && length < capacity && cloned > U64_MAX - ContainerBytes(capacity))
  {
    var (small, large) := (SIZE_OF_VEC + ValueSlots(length), SIZE_OF_VEC + ValueSlots(capacity));
    assert ContainerBytes(capacity) == large && ContainerBytes(length) == small;
    if heap < U64_MAX {
      assert large + nested <= heap;
      assert SatSub(heap, large) >= cloned;
    } else {
      assert SatSub(heap, large) == U64_MAX - large;
      assert small <= large && (length < capacity <==> small < large);
    }
  }

  // In terms of the recount, when the array's own cache is exact.
  lemma ExactCloneUndercounts(a: ArrayValue)
    requires Accounted(Array(a), true) && WellSized(Array(a))
    ensures CloneUndercounts(a)
       <==> (&& Bytes(Array(a)) > U64_MAX && |a.values| < a.capacity
             && BytesOf(CloneValues(a.values)) > U64_MAX - ContainerBytes(a.capacity))
  {
    ClonesKeepShape(a.values, true);
    assert CachesAgree(a, true);
  }

  // An array that holds one array twice, which holds another one twice, and so
  // on: nested arrays are shared, and counted at every reference.
  ghost function Tower(levels: nat): Value {
    if levels == 0 then Array(NewArray([], 0))
    else Array(NewArray([Tower(levels - 1), Tower(levels - 1)], 2))
  }

  ghost function Power2(n: nat): nat { if n == 0 then 1 else 2 * Power2(n - 1) }

  lemma {:induction false} TowerIsHuge(levels: nat)
    ensures Tower(levels).Array? && Accounted(Tower(levels), true) && WellSized(Tower(levels))
    ensures Bytes(Tower(levels)) >= Power2(levels)
    ensures Elements(Tower(levels)) + 1 >= Power2(levels)
  {
    if levels == 0 {
      NewArrayIsAccounted([], 0, true);
      hide NewArray;
    } else {
      TowerIsHuge(levels - 1);
      var below := Tower(levels - 1);
      hide Tower;
      PairIsAccounted(below);
      assert Tower(levels) == Array(NewArray([below, below], 2)) by {
        TowerLevel(levels);
      }
    }
  }

  lemma TowerLevel(levels: nat)
    requires levels > 0
    ensures Tower(levels) == Array(NewArray([Tower(levels - 1), Tower(levels - 1)], 2))
  {
  }

  lemma PairIsAccounted(v: Value)
    requires Accounted(v, true) && WellSized(v)
    ensures Accounted(Array(NewArray([v, v], 2)), true) && WellSized(Array(NewArray([v, v], 2)))
    ensures Bytes(Array(NewArray([v, v], 2))) >= 2 * Bytes(v)
    ensures Elements(Array(NewArray([v, v], 2))) == 2 + 2 * Elements(v)
  {
    NewArrayIsAccounted([v, v], 2, true);
    PairCounts(v);
    hide Accounted, WellSized, BytesOf, NestedElements, AddUsages, MaxStrings, MaxNestingDepth;
  }

  lemma PairCounts(v: Value)
    ensures BytesOf([v, v]) == 2 * Bytes(v) && NestedElements([v, v]) == 2 * Elements(v)
  {
    hide Bytes, Elements;
    assert [v, v][..1] == [v] && [v][..0] == [];
    assert BytesOf([v, v]) == BytesOf([v]) + Bytes(v);
    assert NestedElements([v, v]) == NestedElements([v]) + Elements(v);
  }

  // Sixty-four levels take little memory but exceed what can be counted.
  lemma SaturatedCloneUndercounts() returns (outer: ArrayValue)
    ensures Accounted(Array(outer), true) && WellSized(Array(outer))
    ensures CloneArray(outer).heapBytes < Cap(Bytes(Array(CloneArray(outer))))
  {
    var inner := Tower(64);
    TowerIsHuge(64);
    PowerOfLevels();
    outer := NewArray([inner], 4);
    OverfullPair(inner, outer);
    ExactIsSafe(Array(outer));
    hide *;
    CloneArrayIsAccounted(outer);
  }

  lemma PowerOfLevels()
    ensures Power2(64) == U64_MAX + 1
  {
    assert Power2(2) == 4;
    hide Power2;
    Squared(2, 4);
    Squared(4, 0x10);
    Squared(8, 0x100);
    Squared(16, 0x1_0000);
    Squared(32, 0x1_0000_0000);
  }

  lemma Squared(n: nat, power: nat)
    requires Power2(n) == power
    ensures Power2(n + n) == power * power
  {
    DoublePower(n, n);
  }

  lemma {:induction false} DoublePower(m: nat, n: nat)
    ensures Power2(m + n) == Power2(m) * Power2(n)
  {
    if m > 0 {
      DoublePower(m - 1, n);
      DoubleProduct(Power2(m - 1), Power2(n));
    }
  }

  lemma DoubleProduct(a: nat, b: nat)
    ensures 2 * (a * b) == (2 * a) * b
  {
  }

  lemma OverfullPair(inner: Value, outer: ArrayValue)
    requires inner.Array? && Accounted(inner, true) && WellSized(inner) && Bytes(inner) > U64_MAX
    requires outer == NewArray([inner], 4)
    ensures Accounted(Array(outer), true) && WellSized(Array(outer)) && CloneUndercounts(outer)
  {
    NewArrayIsAccounted([inner], 4, true);
    SingletonClone(inner);
    assert CachesAgree(outer, true);
    assert outer.values == [inner] && outer.capacity == 4;
    assert Bytes(Array(outer)) >= BytesOf([inner]);
  }

  lemma SingletonClone(v: Value)
    requires v.Array?
    ensures CloneValues([v]) == [v] && BytesOf([v]) == Bytes(v)
  {
    assert [v][..0] == [];
  }

  // Exact caches are never too low.
  lemma {:induction false} ExactIsSafe(v: Value)
    requires Accounted(v, true)
    ensures Accounted(v, false)
    decreases v
  {
    match v
    case Tuple(items, _) =>
      forall i | 0 <= i < |items| ensures Accounted(items[i], false) { ExactIsSafe(items[i]); }
    case Array(a) =>
      forall i | 0 <= i < |a.values| ensures Accounted(a.values[i], false) { ExactIsSafe(a.values[i]); }
    case Record(entries) =>
      forall i | 0 <= i < |entries| ensures Accounted(entries[i].value, false) { ExactIsSafe(entries[i].value); }
    case _ =>
  }

  // ---------------------------------------------------------------------
  // Every way to build a value
  // ---------------------------------------------------------------------

  datatype Script =
    | Leaf(leaf: Value)
    | NewTuple(parts: seq<Script>, capacity: nat)
    | NewRecord(keys: seq<string>, parts: seq<Script>)
    | New(parts: seq<Script>, capacity: nat)
    | Push(target: Script, value: Script, capacity: nat)
    | Clone(target: Script)

  // The value a script builds. Pushing to something else than an array does nothing.
  ghost function Build(script: Script): Value
    decreases script, 1
  {
    match script
    case Leaf(leaf) => if leaf.Tuple? || leaf.Array? || leaf.Record? then Na else leaf
    case NewTuple(parts, capacity) => Tuple(BuildAll(parts), capacity)
    case NewRecord(keys, parts) => Record(WithKeys(keys, BuildAll(parts)))
    case New(parts, capacity) => Array(NewArray(BuildAll(parts), capacity))
    case Push(target, value, capacity) =>
      var built := Build(target);
      if built.Array? then Array(PushedArray(built.stored, Build(value), capacity)) else built
    case Clone(target) =>
      var built := Build(target);
      if built.Array? then Array(CloneArray(built.stored)) else CloneValue(built)
  }

  ghost function BuildAll(parts: seq<Script>): (r: seq<Value>)
    ensures |r| == |parts|
    decreases parts, 0
  {
    if parts == [] then [] else BuildAll(parts[..|parts| - 1]) + [Build(parts[|parts| - 1])]
  }

  ghost function WithKeys(keys: seq<string>, values: seq<Value>): (r: seq<Entry>) {
    seq(Min(|keys|, |values|), i requires 0 <= i < Min(|keys|, |values|) => Entry(keys[i], ByteLength(keys[i]), values[i]))
  }

  ghost predicate NoClone(script: Script)
    decreases script, 1
  {
    match script
    case Leaf(_) => true
    case NewTuple(parts, _) => forall i :: 0 <= i < |parts| ==> NoClone(parts[i])
    case NewRecord(_, parts) => forall i :: 0 <= i < |parts| ==> NoClone(parts[i])
    case New(parts, _) => forall i :: 0 <= i < |parts| ==> NoClone(parts[i])
    case Push(target, value, _) => NoClone(target) && NoClone(value)
    case Clone(_) => false
  }

  // What the allocator guarantees: capacities cover lengths, fit the address
  // space and never shrink in a push. No clone is taken that would undercount.
  ghost predicate Feasible(script: Script)
    decreases script, 1
  {
    match script
    case Leaf(leaf) => WellSized(leaf)
    case NewTuple(parts, capacity) => |parts| <= capacity && AllFeasible(parts)
    case NewRecord(_, parts) => AllFeasible(parts)
    case New(parts, capacity) => |parts| <= capacity && SlotsFit(capacity) && AllFeasible(parts)
    case Push(target, value, capacity) =>
      && Feasible(target) && Feasible(value)
      && (var built := Build(target);
          built.Array? ==> |built.stored.values| < capacity && built.stored.capacity <= capacity && SlotsFit(capacity))
    case Clone(target) => Feasible(target) && (Build(target).Array? ==> !CloneUndercounts(Build(target).stored))
  }

  ghost predicate AllFeasible(parts: seq<Script>)
    decreases parts, 0
  {
    forall i :: 0 <= i < |parts| ==> Feasible(parts[i])
  }

  // The main result: whatever sequence of `new`, `push`, `clone` and nesting
  // builds a value, the count and depth cached in every array are the recount;
  // the heap bytes are too when nothing was cloned, and never too low otherwise.
  lemma {:induction false} BuiltValuesAreAccounted(script: Script, exact: bool)
    requires Feasible(script)
    requires exact ==> NoClone(script)
    ensures Accounted(Build(script), exact) && WellSized(Build(script))
    decreases script, 1
  {
    match script
    case Leaf(leaf) =>
    case NewTuple(parts, capacity) => AllBuiltValuesAreAccounted(parts, exact);
    case NewRecord(keys, parts) => AllBuiltValuesAreAccounted(parts, exact);
    case New(parts, capacity) =>
      AllBuiltValuesAreAccounted(parts, exact);
      NewArrayIsAccounted(BuildAll(parts), capacity, exact);
    case Push(target, value, capacity) =>
      BuiltValuesAreAccounted(target, exact);
      BuiltValuesAreAccounted(value, exact);
      if Build(target).Array? {
        PushedArrayIsAccounted(Build(target).stored, Build(value), capacity, exact);
      }
    case Clone(target) =>
      BuiltValuesAreAccounted(target, false);
      if Build(target).Array? {
        CloneArrayIsAccounted(Build(target).stored);
      } else {
        CloneKeepsShape(Build(target), false);
      }
  }

  lemma {:induction false} AllBuiltValuesAreAccounted(parts: seq<Script>, exact: bool)
    requires AllFeasible(parts)
    requires exact ==> forall i :: 0 <= i < |parts| ==> NoClone(parts[i])
    ensures AllAccounted(BuildAll(parts), exact) && AllWellSized(BuildAll(parts))
    decreases parts, 0
  {
    if parts != [] {
      AllBuiltValuesAreAccounted(parts[..|parts| - 1], exact);
      BuiltValuesAreAccounted(parts[|parts| - 1], exact);
    }
  }
}
