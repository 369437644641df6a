/**
 The array and record builtins of the indicator language and their limits
 (indicator-engine/src/intrinsic.rs).
 */
module Collections {
  import opened Basics
  import opened Text
  import opened Values

  datatype IntrinsicError = InvalidArguments(message: string) | InvalidState(message: string) | LimitExceeded(resource: string)

  datatype Limits = Limits(maxCollectionElements: nat, maxHeapBytes: nat)

  function CheckCollectionLimits(limits: Limits, elements: nat, heapBytes: nat): Option<IntrinsicError> {
    if elements > limits.maxCollectionElements then Some(LimitExceeded("collection elements"))
    else if heapBytes > limits.maxHeapBytes then Some(LimitExceeded("heap bytes"))
    else None
  }

  // The result of a builtin that checks these two numbers, in this order.
  ghost predicate WithinLimits(limits: Limits, elements: nat, bytes: nat, r: Result<Value, IntrinsicError>) {
    && (r == Err(LimitExceeded("collection elements")) <==> elements > limits.maxCollectionElements)
    && (r == Err(LimitExceeded("heap bytes")) <==> elements <= limits.maxCollectionElements && bytes > limits.maxHeapBytes)
    && (r.Ok? <==> elements <= limits.maxCollectionElements && bytes <= limits.maxHeapBytes)
  }

  // The values of a sequence in buffers with nothing to spare.
  ghost predicate Copies(items: seq<Value>, copies: seq<Value>) {
    SameValues(items, copies) && AllTight(copies)
  }

  // The arguments are cloned into the new array.
  method EvalArrayNew(limits: Limits, args: seq<Value>) returns (r: Result<Value, IntrinsicError>)
    ensures r.Ok? ==> r.value.Array? && Copies(args, r.value.stored.values) && r.value.stored.capacity == |args|
    ensures r.Ok? ==> r.value == Array(NewArray(r.value.stored.values, |args|))
    ensures AllAccounted(args, true) && AllWellSized(args) ==>
              var built := Array(NewArray(CloneValues(args), |args|));
              WithinLimits(limits, Cap(Elements(built)), Cap(Bytes(built)), r)
    ensures AllAccounted(args, false) && AllWellSized(args) ==>
              (r == Err(LimitExceeded("collection elements"))
               <==> Cap(|args| + NestedElements(args)) > limits.maxCollectionElements)
    ensures AllAccounted(args, false) && AllWellSized(args) && r.Ok? ==>
              && Accounted(r.value, false)
              && Elements(r.value) == |args| + NestedElements(args)
              && Cap(Elements(r.value)) <= limits.maxCollectionElements
              && Cap(Bytes(r.value)) <= limits.maxHeapBytes
  {
    hide CloneValues, NewArray, Accounted, AllAccounted, AllWellSized, Elements, Bytes, Copies, Cap;
    var values := CloneValues(args);
    var a := NewArray(values, |values|);
    NewHolds(args, false);
    NewHolds(args, true);
    var usage := Usage(a.elements, a.heapBytes);
    match CheckCollectionLimits(limits, usage.elements, usage.bytes)
    case Some(error) => r := Err(error);
    case None => r := Ok(Array(a));
  }

  lemma NewHolds(args: seq<Value>, exact: bool)
    ensures var a := NewArray(CloneValues(args), |args|);
            && Copies(args, a.values) && a.capacity == |args| && a == NewArray(a.values, |args|)
            && (AllAccounted(args, exact) && AllWellSized(args) ==>
                  && Accounted(Array(a), exact)
                  && Elements(Array(a)) == |args| + NestedElements(args)
                  && a.elements == Cap(Elements(Array(a)))
                  && Cap(Bytes(Array(a))) <= a.heapBytes
                  && (exact ==> a.heapBytes == Cap(Bytes(Array(a)))))
  {
    hide AddUsages, NestedElements, MaxStrings, MaxNestingDepth, Bytes, AllAccounted, AllWellSized, SameValues, AllTight;
    var values := CloneValues(args);
    ClonesAreSame(args, values);
    if AllAccounted(args, exact) && AllWellSized(args) {
      ClonesKeepShape(args, exact);
      NewArrayIsAccounted(values, |values|, exact);
      assert CachesAgree(NewArray(values, |values|), exact);
    }
  }

  /** The argument still refers to its array, so the push works on a clone.
      `growth` is by how much the allocator then grows the buffer. */
  method EvalArrayPush(limits: Limits, args: seq<Value>, growth: nat) returns (r: Result<Value, IntrinsicError>)
    ensures |args| == 0 || !args[0].Array? ==> r == Err(InvalidArguments("array.push expects an array"))
    ensures |args| > 0 && args[0].Array? ==>
              var a, value := args[0].stored, if |args| > 1 then args[1] else Na;
              && (r.Ok? ==> IsPushed(a, value, growth, r.value))
              && (var projected := ProjectedPushUsage(a, CloneValue(value));
                  WithinLimits(limits, projected.elements, projected.bytes, r))
              && (Pushable(a, value) ==>
                    && (r == Err(LimitExceeded("collection elements"))
                        <==> Cap(Elements(args[0]) + 1 + Elements(value)) > limits.maxCollectionElements)
                    && (r.Ok? ==>
                          && Elements(r.value) == Elements(args[0]) + 1 + Elements(value)
                          && Cap(Elements(r.value)) <= limits.maxCollectionElements
                          && (!CloneUndercounts(a) ==> Accounted(r.value, false) && Cap(Bytes(r.value)) <= r.value.stored.heapBytes)
                          && (SpareSlot(a, growth) ==> r.value.stored.heapBytes <= limits.maxHeapBytes)
                          && (r.value.stored.heapBytes <= ProjectedPushUsage(a, CloneValue(value)).bytes
                              <==> SpareSlot(a, growth) || ProjectedPushUsage(a, CloneValue(value)).bytes == U64_MAX)))
  {
    hide Cap, PushedArray, Accounted, Elements, Bytes, IsPushed;
    if |args| == 0 || !args[0].Array? {
      return Err(InvalidArguments("array.push expects an array"));
    }
    var a := args[0].stored;
    var value := CloneValue(if |args| > 1 then args[1] else Na);
    var projected := ProjectedPushUsage(a, value);
    ghost var pushable := Pushable(a, if |args| > 1 then args[1] else Na);
    if pushable {
      PushWithinLimits(a, if |args| > 1 then args[1] else Na, growth);
    }
    match CheckCollectionLimits(limits, projected.elements, projected.bytes)
    case Some(error) => r := Err(error);
    case None =>
      var cell := new ArrayCell(CloneArray(a));
      cell.Push(value, |a.values| + growth);
      PushHolds(a, if |args| > 1 then args[1] else Na, growth);
      r := Ok(Array(cell.Snapshot()));
  }

  // The elements that were there in their order, and then the given value, in
  // an array that accounts for the push.
  ghost predicate IsPushed(a: ArrayValue, value: Value, growth: nat, pushed: Value) {
    && pushed.Array?
    && Copies(a.values + [value], pushed.stored.values)
    && pushed == Array(PushedArray(CloneArray(a), CloneValue(value), |a.values| + growth))
  }

  lemma PushHolds(a: ArrayValue, value: Value, growth: nat)
    ensures IsPushed(a, value, growth, Array(PushedArray(CloneArray(a), CloneValue(value), |a.values| + growth)))
  {
    hide CloneValue, CloneValues, SameValues, AllTight;
    var all := a.values + [value];
    ClonesAreSame(all, CloneValues(all));
    ClonesOfAppend(a.values, value);
  }

  lemma ClonesOfAppend(items: seq<Value>, item: Value)
    ensures CloneValues(items + [item]) == CloneValues(items) + [CloneValue(item)]
  {
    hide CloneValue;
    assert (items + [item])[..|items|] == items;
  }

  ghost predicate Pushable(a: ArrayValue, value: Value) {
    && Accounted(Array(a), false) && Accounted(value, false)
    && WellSized(Array(a)) && WellSized(value)
  }

  // The grown clone needs at most one slot more than the original had.
  predicate SpareSlot(a: ArrayValue, growth: nat) { |a.values| + growth <= a.capacity + 1 }

  // The projection is the exact element count of the result, and covers its
  // heap bytes exactly when the original had the slots that the clone grows to.
  lemma PushWithinLimits(a: ArrayValue, value: Value, growth: nat)
    requires Pushable(a, value)
    ensures var pushed := PushedArray(CloneArray(a), CloneValue(value), |a.values| + growth);
            var projected := ProjectedPushUsage(a, CloneValue(value));
            && Elements(Array(pushed)) == Elements(Array(a)) + 1 + Elements(value)
            && projected.elements == Cap(Elements(Array(pushed)))
            && (!CloneUndercounts(a) ==> Accounted(Array(pushed), false) && Cap(Bytes(Array(pushed))) <= pushed.heapBytes)
            && (pushed.heapBytes <= projected.bytes <==> SpareSlot(a, growth) || projected.bytes == U64_MAX)
            && projected.bytes <= U64_MAX
  {
    hide Cap, ResourceUsage, NestingDepth, Bytes, Elements, Depth, Accounted, AllAccounted, CloneValue, CloneValues, WellSized, CloneArray,
         CloneUndercounts, MaxStringCapacity, LongestString;
    CloneKeepsShape(value, false);
    CloneIsAccounted(a);
    PushedArrayIsAccounted(a, CloneValue(value), a.capacity, false);
    PushRecount(CloneArray(a), CloneValue(value), |a.values| + growth);
    if !CloneUndercounts(a) {
      PushedArrayIsAccounted(CloneArray(a), CloneValue(value), |a.values| + growth, false);
    }
    PushHeapIsCovered(a, CloneValue(value), growth);
  }

  lemma PushHeapIsCovered(a: ArrayValue, value: Value, growth: nat)
    requires |a.values| <= a.capacity && SlotsFit(a.capacity) && ContainerBytes(a.capacity) <= a.heapBytes <= U64_MAX
    ensures var pushed := PushedArray(CloneArray(a), value, |a.values| + growth);
            var projected := ProjectedPushUsage(a, value).bytes;
            && (pushed.heapBytes <= projected <==> SpareSlot(a, growth) || projected == U64_MAX)
            && projected <= U64_MAX
  {
    hide ResourceUsage, CloneValues, MaxStringCapacity, NestingDepth;
    CloneBytesExactly(a);
    var bytes := ResourceUsage(value).bytes;
    var base := ValueSlots(|a.values|) + (a.heapBytes - ValueSlots(a.capacity));
    assert CloneArray(a).heapBytes == base;
    assert ProjectedPushUsage(a, value).bytes == Cap(a.heapBytes + ValueSlots(1) + bytes);
    assert PushedArray(CloneArray(a), value, |a.values| + growth).heapBytes == Cap(base + bytes + ValueSlots(growth));
  }

  lemma CloneBytesExactly(a: ArrayValue)
    requires |a.values| <= a.capacity && SlotsFit(a.capacity) && ContainerBytes(a.capacity) <= a.heapBytes <= U64_MAX
    ensures CloneArray(a).heapBytes == ValueSlots(|a.values|) + (a.heapBytes - ValueSlots(a.capacity))
  {
  }

  lemma CloneIsAccounted(a: ArrayValue)
    requires Accounted(Array(a), false) && WellSized(Array(a))
    ensures Accounted(Array(CloneArray(a)), false) <==> !CloneUndercounts(a)
    ensures Elements(Array(CloneArray(a))) == Elements(Array(a))
    ensures CloneArray(a).capacity == |a.values| <= a.capacity && SlotsFit(a.capacity)
    ensures ContainerBytes(a.capacity) <= a.heapBytes <= U64_MAX
  {
    CloneArrayIsAccounted(a);
    assert CachesAgree(a, false);
    hide BytesOf;
  }

  // Some limit is passed by the result of a push that it let through, exactly
  // when the projection does not cover the result.
  lemma LimitIsPassed(a: ArrayValue, value: Value, growth: nat)
    requires Pushable(a, value)
    ensures (exists limits :: PassesLimit(limits, a, value, growth))
       <==> (!SpareSlot(a, growth) && ProjectedPushUsage(a, CloneValue(value)).bytes < U64_MAX)
  {
    hide Pushable, PushedArray, ProjectedPushUsage, SpareSlot;
    PushWithinLimits(a, value, growth);
    var projected := ProjectedPushUsage(a, CloneValue(value));
    if !SpareSlot(a, growth) && projected.bytes < U64_MAX {
      assert PassesLimit(Limits(projected.elements, projected.bytes), a, value, growth);
    }
  }

  predicate PassesLimit(limits: Limits, a: ArrayValue, value: Value, growth: nat) {
    var projected := ProjectedPushUsage(a, CloneValue(value));
    && CheckCollectionLimits(limits, projected.elements, projected.bytes) == None
    && PushedArray(CloneArray(a), CloneValue(value), |a.values| + growth).heapBytes > limits.maxHeapBytes
  }

  // A vector that doubles, from four slots up, always grows a clone by more
  // than one slot: only spare slots of the original make up for it.
  lemma DoublingPush(a: ArrayValue, growth: nat)
    requires growth == Max(2 * |a.values|, 4) - |a.values|
    ensures SpareSlot(a, growth) <==> Max(2 * |a.values|, 4) <= a.capacity + 1
    ensures a.capacity == |a.values| ==> !SpareSlot(a, growth)
  {
  }

  // An array with nothing to spare passes the limit just checked.
  lemma PushCanOvershootHeapLimit() returns (a: ArrayValue, limits: Limits, growth: nat)
    ensures Pushable(a, Na) && growth == Max(2 * |a.values|, 4) - |a.values|
    ensures PassesLimit(limits, a, Na, growth)
  {
    a, limits, growth := NewArray([], 0), Limits(1, 100), 4;
    NewArrayIsAccounted([], 0, false);
  }

  // ---------------------------------------------------------------------
  // Records
  // ---------------------------------------------------------------------

  predicate KeyBefore(a: string, b: string) {
    if b == "" then false
    else if a == "" then true
    else a[0] < b[0] || (a[0] == b[0] && KeyBefore(a[1..], b[1..]))
  }

  ghost predicate KeysAscend(entries: seq<Entry>) {
    forall i, j :: 0 <= i < j < |entries| ==> KeyBefore(entries[i].key, entries[j].key)
  }

  function Lookup(entries: seq<Entry>, key: string): Option<Value> {
    if entries == [] then None
    else if entries[0].key == key then Some(entries[0].value)
    else Lookup(entries[1..], key)
  }

  // Insertion into the ordered map: an existing entry keeps its key.
  function Insert(entries: seq<Entry>, entry: Entry): seq<Entry> {
    if entries == [] then [entry]
    else if entries[0].key == entry.key then [entries[0].(value := entry.value)] + entries[1..]
    else if KeyBefore(entry.key, entries[0].key) then [entry] + entries
    else [entries[0]] + Insert(entries[1..], entry)
  }

  function RecordElements(entries: seq<Entry>): nat {
    AddEntryUsages(Usage(Cap(|entries|), 0), entries).elements
  }

  function RecordHeapBytes(entries: seq<Entry>): nat {
    AddEntryUsages(Usage(0, Cap(SIZE_OF_MAP + Cap(EntrySlots(|entries|)))), entries).bytes
  }

  function ProjectedSetElements(entries: seq<Entry>, key: string, value: Value): nat {
    var previous := match Lookup(entries, key)
                    case Some(old_) => Cap(1 + ResourceUsage(old_).elements)
                    case None => 0;
    Cap(Cap(SatSub(RecordElements(entries), previous) + 1) + ResourceUsage(value).elements)
  }

  function ProjectedSetBytes(entries: seq<Entry>, key: string, keyCapacity: nat, value: Value): nat {
    var previous := match Lookup(entries, key)
                    case Some(old_) => Cap(Cap(SIZE_OF_STRING + keyCapacity) + ResourceUsage(old_).bytes)
                    case None => 0;
    Cap(Cap(Cap(SatSub(RecordHeapBytes(entries), previous) + SIZE_OF_STRING) + keyCapacity) + ResourceUsage(value).bytes)
  }

  // The record, the key and the value are cloned.
  method EvalRecordSet(limits: Limits, args: seq<Value>) returns (r: Result<Value, IntrinsicError>)
    ensures |args| == 0 || !args[0].Record? ==> r == Err(InvalidArguments("record.set expects a record"))
    ensures |args| > 0 && args[0].Record? && (|args| == 1 || !args[1].Str?) ==>
              r == Err(InvalidArguments("record.set expects a string key"))
    ensures |args| > 1 && args[0].Record? && args[1].Str? ==>
              var entries, key, value := args[0].entries, args[1], if |args| > 2 then args[2] else Na;
              var updated := SetRecord(entries, key.text, value);
              && (r.Ok? ==> r.value == updated && IsSet(entries, key.text, value, r.value))
              && WithinLimits(limits, ProjectedSetElements(entries, key.text, CloneValue(value)),
                              ProjectedSetBytes(entries, key.text, key.strCapacity, CloneValue(value)), r)
              && (Settable(entries, value) ==>
                    && Accounted(updated, false)
                    && (r == Err(LimitExceeded("collection elements")) ==> Cap(Elements(updated)) > limits.maxCollectionElements)
                    && (CountIsExact(entries, key.text, value) && Cap(Elements(updated)) > limits.maxCollectionElements ==>
                          r == Err(LimitExceeded("collection elements")))
                    && (r.Ok? && HeapIsCovered(entries, key.text, key.strCapacity, value) ==> Cap(Bytes(updated)) <= limits.maxHeapBytes)
                    && (r.Ok? && ByteLength(key.text) <= key.strCapacity && HeapTotal(entries) <= U64_MAX ==>
                          Cap(Bytes(updated)) <= limits.maxHeapBytes + EntrySlots(1)))
  {
    if |args| == 0 || !args[0].Record? {
      return Err(InvalidArguments("record.set expects a record"));
    }
    if |args| == 1 || !args[1].Str? {
      return Err(InvalidArguments("record.set expects a string key"));
    }
    var entries, key := args[0].entries, args[1];
    var value := CloneValue(if |args| > 2 then args[2] else Na);
    var projected := ProjectedSetElements(entries, key.text, value);
    var projectedHeap := ProjectedSetBytes(entries, key.text, key.strCapacity, value);
    ghost var given := if |args| > 2 then args[2] else Na;
    ghost var settable := Settable(entries, given);
    if settable {
      SetProjectsElements(entries, key.text, given);
      SetProjectsHeap(entries, key.text, key.strCapacity, given);
    }
    SetHolds(entries, key.text, given);
    hide ProjectedSetElements, ProjectedSetBytes, Elements, Bytes, Accounted, HeapIsCovered, CountIsExact, Settable, HeapTotal, IsSet;
    match CheckCollectionLimits(limits, projected, projectedHeap)
    case Some(error) => r := Err(error);
    case None => r := Ok(Record(Insert(CloneEntries(entries), Entry(key.text, ByteLength(key.text), value))));
  }

  ghost predicate Settable(entries: seq<Entry>, value: Value) {
    && KeysAscend(entries) && Accounted(Record(entries), false) && Accounted(value, false)
    && WellSized(Record(entries)) && WellSized(value)
  }

  function SetRecord(entries: seq<Entry>, key: string, value: Value): Value {
    Record(Insert(CloneEntries(entries), Entry(key, ByteLength(key), CloneValue(value))))
  }

  // The given value under its key, every other value under its own, keys in
  // their order, and buffers with nothing to spare.
  ghost predicate IsSet(entries: seq<Entry>, key: string, value: Value, updated: Value) {
    && updated.Record? && EntriesTight(updated.entries)
    && (KeysAscend(entries) ==>
          && KeysAscend(updated.entries)
          && forall k :: SameLookup(if k == key then Some(value) else Lookup(entries, k), Lookup(updated.entries, k)))
  }

  ghost predicate SameLookup(before: Option<Value>, after: Option<Value>) {
    (before.Some? <==> after.Some?) && (before.Some? ==> SameValue(before.value, after.value))
  }

  lemma SetHolds(entries: seq<Entry>, key: string, value: Value)
    ensures IsSet(entries, key, value, SetRecord(entries, key, value))
  {
    hide CloneValue, CloneEntries, Lookup, Insert, KeysAscend, SameValue, EntriesTight;
    var clones, entry := CloneEntries(entries), Entry(key, ByteLength(key), CloneValue(value));
    SetRecordIsTight(entries, key, value);
    TightRecord(Insert(clones, entry));
    if KeysAscend(entries) {
      ClonesAscend(entries);
      InsertAscends(clones, entry);
      forall k ensures SameLookup(if k == key then Some(value) else Lookup(entries, k), Lookup(Insert(clones, entry), k)) {
        InsertSetsKey(clones, entry, k);
        LookupInClones(entries, k);
        ClonedIsSame(value);
        if Lookup(entries, k).Some? {
          ClonedIsSame(Lookup(entries, k).value);
        }
      }
    }
  }

  lemma ClonedIsSame(v: Value)
    ensures SameValue(v, CloneValue(v))
  {
    CloneIsSame(v, CloneValue(v));
  }

  lemma TightRecord(entries: seq<Entry>)
    requires CloneValue(Record(entries)) == Record(entries)
    ensures EntriesTight(entries)
  {
    ClonedParts(entries);
    EntryClonesAreSame(entries, entries);
  }

  lemma {:induction false} InsertAscends(entries: seq<Entry>, entry: Entry)
    requires KeysAscend(entries)
    ensures KeysAscend(Insert(entries, entry))
    ensures forall e :: e in Insert(entries, entry) ==> e.key == entry.key || exists f :: f in entries && f.key == e.key
    decreases |entries|
  {
    hide KeyBefore;
    if entries != [] {
      var (first, rest) := (entries[0], entries[1..]);
      KeyOrder(entry.key, first.key);
      assert entries == [first] + rest && KeysAscend(rest);
      if first.key == entry.key {
        PrependAscends(first.(value := entry.value), rest);
      } else if KeyBefore(entry.key, first.key) {
        forall e | e in entries ensures KeyBefore(entry.key, e.key) {
          if e != first {
            KeyBeforeTransitive(entry.key, first.key, e.key);
          }
        }
        PrependAscends(entry, entries);
      } else {
        InsertAscends(rest, entry);
        PrependAscends(first, Insert(rest, entry));
      }
    }
  }

  lemma PrependAscends(entry: Entry, entries: seq<Entry>)
    requires KeysAscend(entries) && forall e :: e in entries ==> KeyBefore(entry.key, e.key)
    ensures KeysAscend([entry] + entries)
  {
    hide KeyBefore;
  }

  lemma {:induction false} NestedElementsOfCons(entry: Entry, entries: seq<Entry>)
    ensures NestedEntryElements([entry] + entries) == Elements(entry.value) + NestedEntryElements(entries)
  {
    var all := [entry] + entries;
    if entries == [] {
      assert all[..0] == [];
    } else {
      NestedElementsOfCons(entry, entries[..|entries| - 1]);
      assert all[..|all| - 1] == [entry] + entries[..|entries| - 1];
    }
  }

  lemma {:induction false} KeyOrder(a: string, b: string)
    ensures a == b || KeyBefore(a, b) || KeyBefore(b, a)
    ensures !(KeyBefore(a, b) && KeyBefore(b, a)) && !KeyBefore(a, a)
  {
    if a != "" && b != "" {
      KeyOrder(a[1..], b[1..]);
      assert a == [a[0]] + a[1..] && b == [b[0]] + b[1..];
      KeyOrder(a[1..], a[1..]);
    } else if a != "" {
      KeyOrder(a[1..], a[1..]);
    }
  }

  // A set replaces the value of its key and nothing else.
  lemma {:induction false} InsertSetsKey(entries: seq<Entry>, entry: Entry, key: string)
    requires KeysAscend(entries)
    ensures Lookup(Insert(entries, entry), key) == if key == entry.key then Some(entry.value) else Lookup(entries, key)
  {
    if entries != [] {
      assert KeysAscend(entries[1..]);
      InsertSetsKey(entries[1..], entry, key);
      if KeyBefore(entry.key, entries[0].key) {
        KeyOrder(entry.key, entries[0].key);
      }
    }
  }

  lemma {:induction false} KeyBeforeTransitive(a: string, b: string, c: string)
    requires KeyBefore(a, b) && KeyBefore(b, c)
    ensures KeyBefore(a, c)
  {
    if a != "" && a[0] == b[0] == c[0] {
      KeyBeforeTransitive(a[1..], b[1..], c[1..]);
    }
  }

  lemma {:induction false} AbsentBelow(entries: seq<Entry>, key: string)
    requires KeysAscend(entries)
    requires entries != [] ==> KeyBefore(key, entries[0].key)
    ensures Lookup(entries, key) == None
  {
    if entries != [] {
      KeyOrder(key, entries[0].key);
      if |entries| > 1 {
        KeyBeforeTransitive(key, entries[0].key, entries[1].key);
      }
      AbsentBelow(entries[1..], key);
    }
  }

  lemma {:induction false} InsertRecount(entries: seq<Entry>, entry: Entry)
    requires KeysAscend(entries)
    requires EntriesAccounted(entries, false) && Accounted(entry.value, false)
    ensures EntriesAccounted(Insert(entries, entry), false)
    ensures var lookup := Lookup(entries, entry.key);
            && (lookup.Some? ==>
                  && Accounted(lookup.value, false)
                  && 1 + Elements(lookup.value) <= |entries| + NestedEntryElements(entries))
            && |Insert(entries, entry)| + NestedEntryElements(Insert(entries, entry))
                 + (if lookup.Some? then 1 + Elements(lookup.value) else 0)
               == |entries| + NestedEntryElements(entries) + 1 + Elements(entry.value)
    decreases |entries|
  {
    hide Accounted, Elements, NestedEntryElements, KeyBefore;
    NoElements();
    if entries != [] {
      var rest := entries[1..];
      assert KeysAscend(rest);
      assert entries == [entries[0]] + rest;
      NestedElementsOfCons(entries[0], rest);
      if entries[0].key == entry.key {
        NestedElementsOfCons(entries[0].(value := entry.value), rest);
      } else if KeyBefore(entry.key, entries[0].key) {
        AbsentBelow(entries, entry.key);
        NestedElementsOfCons(entry, entries);
      } else {
        InsertRecount(rest, entry);
        NestedElementsOfCons(entries[0], Insert(rest, entry));
      }
    } else {
      NestedElementsOfCons(entry, []);
      assert [entry] + [] == [entry];
    }
  }

  lemma NoElements()
    ensures NestedEntryElements([]) == 0
  {
  }

  lemma {:induction false} LookupInClones(entries: seq<Entry>, key: string)
    ensures Lookup(CloneEntries(entries), key)
         == match Lookup(entries, key)
            case None => None
            case Some(value) => Some(CloneValue(value))
    decreases |entries|
  {
    hide CloneValue, CloneEntries;
    if entries != [] {
      CloneEntriesAt(entries, 0);
      LookupInClones(entries[1..], key);
      ClonesOfRest(entries);
    }
  }

  lemma {:induction false} ClonesOfRest(entries: seq<Entry>)
    requires entries != []
    ensures CloneEntries(entries)[1..] == CloneEntries(entries[1..])
  {
    hide CloneValue, CloneEntries;
    forall i: nat | i < |entries| - 1 ensures CloneEntries(entries)[1..][i] == CloneEntries(entries[1..])[i] {
      CloneEntriesAt(entries, i + 1);
      CloneEntriesAt(entries[1..], i);
    }
  }

  lemma {:induction false} ClonesAscend(entries: seq<Entry>)
    requires KeysAscend(entries)
    ensures KeysAscend(CloneEntries(entries))
  {
    hide CloneValue, CloneEntries, KeyBefore;
    forall i: nat | i < |entries| ensures CloneEntries(entries)[i].key == entries[i].key {
      CloneEntriesAt(entries, i);
    }
  }

  lemma {:induction false} FoundIsFit(entries: seq<Entry>, key: string)
    requires EntriesAccounted(entries, false) && EntriesWellSized(entries) && Lookup(entries, key).Some?
    ensures Accounted(Lookup(entries, key).value, false) && WellSized(Lookup(entries, key).value)
    decreases |entries|
  {
    if entries[0].key != key {
      FoundIsFit(entries[1..], key);
    }
  }

  // A set takes out the previous value of its key, if there is one, and puts
  // in the new one.
  lemma SetElements(entries: seq<Entry>, key: string, value: Value)
    requires Settable(entries, value)
    ensures Accounted(SetRecord(entries, key, value), false)
    ensures match Lookup(entries, key)
            case None => Elements(SetRecord(entries, key, value)) == Elements(Record(entries)) + 1 + Elements(value)
            case Some(previous) =>
              && 1 + Elements(previous) <= Elements(Record(entries))
              && Elements(SetRecord(entries, key, value)) == Elements(Record(entries)) - Elements(previous) + Elements(value)
  {
    hide KeysAscend, RecordElements, Elements, Accounted, Insert, Lookup, ResourceUsage, CloneValue, CloneEntries,
         EntriesAccounted, EntriesWellSized;
    var entry := Entry(key, ByteLength(key), CloneValue(value));
    ClonesAreFit(entries, key, value);
    InsertRecount(CloneEntries(entries), entry);
    RecordRecount(Insert(CloneEntries(entries), entry));
  }

  // Nothing is taken out of a count that has saturated, but for these cases:
  // all of it, or no more than is put in.
  ghost predicate CountIsExact(entries: seq<Entry>, key: string, value: Value) {
    match Lookup(entries, key)
    case None => true
    case Some(previous) =>
      || Elements(Record(entries)) <= U64_MAX
      || Elements(Record(entries)) == 1 + Elements(previous)
      || 1 + Elements(value) >= Cap(1 + Elements(previous))
  }

  // `record.set` checks the element count of the very record it returns,
  // exactly in those cases. Otherwise it checks a lower one.
  lemma SetProjectsElements(entries: seq<Entry>, key: string, value: Value)
    requires Settable(entries, value)
    ensures Accounted(SetRecord(entries, key, value), false)
    ensures ProjectedSetElements(entries, key, CloneValue(value)) <= Cap(Elements(SetRecord(entries, key, value)))
    ensures ProjectedSetElements(entries, key, CloneValue(value)) == Cap(Elements(SetRecord(entries, key, value)))
       <==> CountIsExact(entries, key, value)
  {
    hide Cap, KeysAscend, RecordElements, Elements, Accounted, SetRecord, Lookup, ResourceUsage, CloneValue, CloneEntries,
         EntriesAccounted, EntriesWellSized;
    ClonesAreFit(entries, key, value);
    SetElements(entries, key, value);
    if Lookup(entries, key).Some? {
      ReplacedElements(Elements(Record(entries)), Elements(Lookup(entries, key).value), Elements(value));
    } else {
      AddedElements(Elements(Record(entries)), Elements(value));
    }
  }

  // What is known of the clones that a set works on.
  lemma ClonesAreFit(entries: seq<Entry>, key: string, value: Value)
    requires Settable(entries, value)
    ensures Accounted(CloneValue(value), false) && ResourceUsage(CloneValue(value)).elements == Cap(Elements(CloneValue(value)))
    ensures ResourceUsage(CloneValue(value)).bytes >= Cap(Bytes(CloneValue(value)))
    ensures EntriesAccounted(entries, false) && EntriesWellSized(entries)
    ensures KeysAscend(CloneEntries(entries)) && EntriesAccounted(CloneEntries(entries), false)
    ensures Elements(CloneValue(value)) == Elements(value)
    ensures |entries| + NestedEntryElements(CloneEntries(entries)) == Elements(Record(entries))
    ensures RecordElements(entries) == Cap(Elements(Record(entries)))
    ensures match Lookup(entries, key)
            case None => Lookup(CloneEntries(entries), key) == None
            case Some(previous) =>
              && Lookup(CloneEntries(entries), key) == Some(CloneValue(previous))
              && Elements(CloneValue(previous)) == Elements(previous)
              && ResourceUsage(previous).elements == Cap(Elements(previous))
              && ResourceUsage(previous).bytes <= U64_MAX
  {
    EntriesOf(entries);
    hide Accounted, WellSized, Elements, Bytes, CloneValue, CloneEntries, ResourceUsage, RecordElements, Lookup, KeysAscend;
    CloneKeepsShape(value, false);
    UsageIsRecount(CloneValue(value), false);
    RecordRecount(entries);
    EntryClonesKeepShape(entries, false);
    LookupInClones(entries, key);
    ClonesAscend(entries);
    if Lookup(entries, key).Some? {
      FoundIsFit(entries, key);
      CloneKeepsShape(Lookup(entries, key).value, false);
      UsageIsRecount(Lookup(entries, key).value, false);
    }
  }

  lemma EntriesOf(entries: seq<Entry>)
    ensures Accounted(Record(entries), false) ==> EntriesAccounted(entries, false)
    ensures WellSized(Record(entries)) ==> EntriesWellSized(entries)
  {
  }

  // ---------------------------------------------------------------------
  // The heap projection of a set
  // ---------------------------------------------------------------------

  // What the caches say of the entries, without a bound.
  ghost function CachedBytes(entries: seq<Entry>): nat {
    if entries == [] then 0
    else
      var entry := entries[|entries| - 1];
      CachedBytes(entries[..|entries| - 1]) + SIZE_OF_STRING + entry.keyCapacity + ResourceUsage(entry.value).bytes
  }

  lemma {:induction false} CachedBytesAdded(elements: nat, bytes: nat, entries: seq<Entry>)
    ensures AddEntryUsages(Usage(elements, Cap(bytes)), entries).bytes == Cap(bytes + CachedBytes(entries))
    decreases |entries|
  {
    hide ResourceUsage;
    if entries != [] {
      CachedBytesAdded(elements, bytes, entries[..|entries| - 1]);
    }
  }

  lemma {:induction false} BytesOfCons(entry: Entry, entries: seq<Entry>)
    ensures CachedBytes([entry] + entries)
         == SIZE_OF_STRING + entry.keyCapacity + ResourceUsage(entry.value).bytes + CachedBytes(entries)
    ensures BytesOfEntries([entry] + entries) == SIZE_OF_STRING + entry.keyCapacity + Bytes(entry.value) + BytesOfEntries(entries)
    decreases |entries|
  {
    hide ResourceUsage, Bytes;
    var all := [entry] + entries;
    if entries == [] {
      assert all[..0] == [];
    } else {
      BytesOfCons(entry, entries[..|entries| - 1]);
      assert all[..|all| - 1] == [entry] + entries[..|entries| - 1];
    }
  }

  lemma {:induction false} InsertBytes(entries: seq<Entry>, entry: Entry)
    requires KeysAscend(entries)
    ensures BytesOfEntries(Insert(entries, entry))
            + (match Lookup(entries, entry.key)
               case Some(previous) => Bytes(previous)
               case None => 0)
         == BytesOfEntries(entries) + Bytes(entry.value)
            + (if Lookup(entries, entry.key).Some? then 0 else SIZE_OF_STRING + entry.keyCapacity)
    decreases |entries|
  {
    hide Bytes, BytesOfEntries, KeyBefore, CachedBytes;
    if entries != [] {
      var rest := entries[1..];
      assert entries == [entries[0]] + rest;
      BytesOfCons(entries[0], rest);
      if entries[0].key == entry.key {
        BytesOfCons(entries[0].(value := entry.value), rest);
      } else if KeyBefore(entry.key, entries[0].key) {
        AbsentBelow(entries, entry.key);
        BytesOfCons(entry, entries);
      } else {
        InsertBytes(rest, entry);
        BytesOfCons(entries[0], Insert(rest, entry));
      }
    } else {
      BytesOfCons(entry, []);
      assert [entry] + [] == [entry];
    }
  }

  // Leaving out the entry of a key, the caches still cover the clones.
  lemma {:induction false} CachesCoverClones(entries: seq<Entry>, key: string)
    requires EntriesAccounted(entries, false) && EntriesWellSized(entries) && CachedBytes(entries) < U64_MAX
    ensures match Lookup(entries, key)
            case Some(previous) =>
              CachedBytes(entries) + Bytes(CloneValue(previous)) >= BytesOfEntries(CloneEntries(entries)) + ResourceUsage(previous).bytes
            case None => CachedBytes(entries) >= BytesOfEntries(CloneEntries(entries))
    decreases |entries|
  {
    hide Bytes, BytesOfEntries, ResourceUsage, CloneValue, CachedBytes;
    if entries != [] {
      var (first, rest) := (entries[0], entries[1..]);
      assert entries == [first] + rest;
      BytesOfCons(first, rest);
      ClonesOfRest(entries);
      CloneEntriesAt(entries, 0);
      assert CloneEntries(entries) == [CloneEntries(entries)[0]] + CloneEntries(rest);
      BytesOfCons(CloneEntries(entries)[0], CloneEntries(rest));
      CloneKeepsShape(first.value, false);
      UsageIsRecount(first.value, false);
      CachesCoverClones(rest, key);
      if first.key == key {
        AllCachesCoverClones(rest);
      }
    } else {
      NoBytes();
    }
  }

  lemma NoBytes()
    ensures CachedBytes([]) == 0 && BytesOfEntries([]) == 0 && CloneEntries([]) == []
  {
  }

  lemma {:induction false} AllCachesCoverClones(entries: seq<Entry>)
    requires EntriesAccounted(entries, false) && EntriesWellSized(entries) && CachedBytes(entries) < U64_MAX
    ensures CachedBytes(entries) >= BytesOfEntries(CloneEntries(entries))
    decreases |entries|
  {
    hide Bytes, ResourceUsage, CloneValue;
    if entries != [] {
      var (front, last) := (entries[..|entries| - 1], entries[|entries| - 1]);
      AllCachesCoverClones(front);
      CloneKeepsShape(last.value, false);
      UsageIsRecount(last.value, false);
      var clones := CloneEntries(entries);
      assert clones[..|clones| - 1] == CloneEntries(front);
    }
  }

  // The heap bytes that the caches give for the record, without a bound.
  ghost function HeapTotal(entries: seq<Entry>): nat {
    SIZE_OF_MAP + EntrySlots(|entries|) + CachedBytes(entries)
  }

  // By how much the caches exceed what the clones of entries, key and value need.
  ghost function SpareBytes(entries: seq<Entry>, key: string, keyCapacity: nat, value: Value): int {
    CachedBytes(entries) - BytesOfEntries(CloneEntries(entries)) + keyCapacity - ByteLength(key)
    + ResourceUsage(CloneValue(value)).bytes - Bytes(CloneValue(value))
  }

  // What the returned record needs beside the value of a key that was there.
  ghost function KeptBytes(entries: seq<Entry>, previous: Value): int {
    SIZE_OF_MAP + EntrySlots(|entries|) + BytesOfEntries(CloneEntries(entries)) - Bytes(CloneValue(previous))
  }

  // A new key needs a slot that something must pay for. For a key that is
  // there, the previous value can be taken out of a total that has not
  // saturated; of one that has, what is left must do.
  ghost predicate HeapIsCovered(entries: seq<Entry>, key: string, keyCapacity: nat, value: Value) {
    || ProjectedSetBytes(entries, key, keyCapacity, CloneValue(value)) == U64_MAX
    || match Lookup(entries, key)
       case None => SpareBytes(entries, key, keyCapacity, value) >= EntrySlots(1)
       case Some(previous) =>
         || HeapTotal(entries) <= U64_MAX
         || KeptBytes(entries, previous) + Bytes(CloneValue(value))
            <= Max(U64_MAX - ResourceUsage(previous).bytes, SIZE_OF_STRING + keyCapacity) + ResourceUsage(CloneValue(value)).bytes
  }

  // The heap projection covers the record returned exactly in those cases. On
  // a total that has not saturated it lacks at most the slot of a new key.
  lemma SetProjectsHeap(entries: seq<Entry>, key: string, keyCapacity: nat, value: Value)
    requires Settable(entries, value)
    ensures Cap(Bytes(SetRecord(entries, key, value))) <= ProjectedSetBytes(entries, key, keyCapacity, CloneValue(value))
       <==> HeapIsCovered(entries, key, keyCapacity, value)
    ensures ByteLength(key) <= keyCapacity && HeapTotal(entries) <= U64_MAX ==>
              Cap(Bytes(SetRecord(entries, key, value)))
              <= ProjectedSetBytes(entries, key, keyCapacity, CloneValue(value)) + EntrySlots(1)
  {
    hide Accounted, WellSized, Elements, CloneValue, CloneEntries, ResourceUsage, Lookup, KeysAscend, Insert, BytesOfEntries,
         CachedBytes, EntriesAccounted, EntriesWellSized, Bytes, Cap, RecordHeapBytes;
    var entry := Entry(key, ByteLength(key), CloneValue(value));
    var after := Insert(CloneEntries(entries), entry);
    ClonesAreFit(entries, key, value);
    HeapIsCached(entries);
    InsertBytes(CloneEntries(entries), entry);
    InsertLength(CloneEntries(entries), entry);
    RecordBytes(after);
    SmallerTotal(entries);
    if CachedBytes(entries) < U64_MAX {
      CachesCoverClones(entries, key);
    }
    var (total, size) := (HeapTotal(entries), SIZE_OF_STRING);
    var (added, counted) := (ResourceUsage(entry.value).bytes, Bytes(entry.value));
    match Lookup(entries, key)
    case Some(previous) =>
      ReplacedHeap(total, size, keyCapacity, ResourceUsage(previous).bytes, added, counted, KeptBytes(entries, previous));
    case None =>
      AddedHeap(total, size, keyCapacity, added, counted, Bytes(Record(after)), EntrySlots(1));
  }

  lemma HeapIsCached(entries: seq<Entry>)
    ensures RecordHeapBytes(entries) == Cap(HeapTotal(entries))
  {
    CachedBytesAdded(0, SIZE_OF_MAP + Cap(EntrySlots(|entries|)), entries);
    hide CachedBytes, AddEntryUsages;
  }

  lemma SmallerTotal(entries: seq<Entry>)
    ensures CachedBytes(entries) < HeapTotal(entries)
  {
    hide CachedBytes;
  }

  lemma RecordBytes(entries: seq<Entry>)
    ensures Bytes(Record(entries)) == SIZE_OF_MAP + EntrySlots(|entries|) + BytesOfEntries(entries)
  {
  }

  lemma ReplacedHeap(total: nat, size: nat, capacity: nat, removed: nat, added: nat, counted: nat, kept: int)
    requires added >= Cap(counted) && kept + counted >= 0 && removed <= U64_MAX
    requires total <= U64_MAX ==> kept + removed <= total
    ensures var projected := Cap(Cap(Cap(SatSub(Cap(total), Cap(Cap(size + capacity) + removed)) + size) + capacity) + added);
            && (Cap(kept + counted) <= projected
                <==> (|| projected == U64_MAX || total <= U64_MAX
                      || kept + counted <= Max(U64_MAX - removed, size + capacity) + added))
            && projected <= U64_MAX
  {
  }

  lemma AddedHeap(total: nat, size: nat, capacity: nat, added: nat, counted: nat, after: nat, slot: nat)
    requires added >= Cap(counted)
    ensures var projected := Cap(Cap(Cap(SatSub(Cap(total), 0) + size) + capacity) + added);
            && (Cap(after) <= projected <==> projected == U64_MAX || after <= total + size + capacity + added)
            && (after <= total + slot + size + capacity + counted ==> Cap(after) <= projected + slot)
  {
  }

  // What a set returns has nothing that a clone would save.
  lemma {:induction false} SetRecordIsTight(entries: seq<Entry>, key: string, value: Value)
    ensures CloneValue(SetRecord(entries, key, value)) == SetRecord(entries, key, value)
  {
    hide CloneEntries, BytesOfEntries, Insert;
    CloneTwice(value);
    EntriesCloneTwice(entries);
    InsertIsTight(CloneEntries(entries), Entry(key, ByteLength(key), CloneValue(value)));
  }

  // So with exact caches, another new key on it, without spare capacity
  // either, always passes the projection, unless that has saturated.
  lemma TightSetIsNotCovered(entries: seq<Entry>, key: string, value: Value)
    requires Settable(entries, value) && CloneValue(Record(entries)) == Record(entries) && Lookup(entries, key).None?
    requires Accounted(Record(entries), true) && Accounted(value, true)
    ensures HeapIsCovered(entries, key, ByteLength(key), value)
       <==> ProjectedSetBytes(entries, key, ByteLength(key), CloneValue(value)) == U64_MAX
  {
    hide ResourceUsage, CloneValue, BytesOfEntries, CachedBytes, Bytes, Lookup, WellSized, KeysAscend;
    ClonedParts(entries);
    HeapIsCached(entries);
    var projected := ProjectedSetBytes(entries, key, ByteLength(key), CloneValue(value));
    ProjectedParts(entries, key, ByteLength(key), CloneValue(value));
    if projected < U64_MAX {
      CloneKeepsShape(value, true);
      UsageIsRecount(CloneValue(value), true);
      CachedIsRecount(entries);
    }
  }

  lemma ClonedParts(entries: seq<Entry>)
    requires CloneValue(Record(entries)) == Record(entries)
    ensures CloneEntries(entries) == entries
  {
    hide CloneEntries;
    assert CloneValue(Record(entries)) == Record(CloneEntries(entries));
  }

  lemma ProjectedParts(entries: seq<Entry>, key: string, keyCapacity: nat, value: Value)
    requires Lookup(entries, key).None?
    ensures ProjectedSetBytes(entries, key, keyCapacity, value) <= U64_MAX
    ensures ProjectedSetBytes(entries, key, keyCapacity, value) < U64_MAX ==>
              CachedBytes(entries) < U64_MAX && ResourceUsage(value).bytes < U64_MAX
  {
    hide ResourceUsage, CachedBytes, RecordHeapBytes;
    HeapIsCached(entries);
  }

  lemma {:induction false} CachedIsRecount(entries: seq<Entry>)
    requires EntriesAccounted(entries, true) && CachedBytes(entries) < U64_MAX
    ensures CachedBytes(entries) == BytesOfEntries(entries)
    decreases |entries|
  {
    hide Bytes, ResourceUsage;
    if entries != [] {
      CachedIsRecount(entries[..|entries| - 1]);
      UsageIsRecount(entries[|entries| - 1].value, true);
    }
  }

  lemma {:induction false} InsertIsTight(entries: seq<Entry>, entry: Entry)
    requires CloneEntries(entries) == entries
    requires entry == Entry(entry.key, ByteLength(entry.key), CloneValue(entry.value))
    ensures CloneEntries(Insert(entries, entry)) == Insert(entries, entry)
  {
    hide CloneValue, CloneEntries;
    var after := Insert(entries, entry);
    forall i: nat | i < |after| ensures CloneEntries(after)[i] == after[i] {
      CloneEntriesAt(after, i);
      InsertedFrom(entries, entry, i);
      forall k: nat | k < |entries| {
        CloneEntriesAt(entries, k);
      }
    }
  }

  // Every entry after a set was there before, is new, or has a new value.
  lemma {:induction false} InsertedFrom(entries: seq<Entry>, entry: Entry, i: nat)
    requires i < |Insert(entries, entry)|
    ensures var e := Insert(entries, entry)[i];
            e == entry || exists k: nat :: k < |entries| && (e == entries[k] || e == entries[k].(value := entry.value))
    decreases |entries|
  {
    hide KeyBefore;
    if entries != [] {
      var rest := entries[1..];
      if entries[0].key == entry.key {
        assert i > 0 ==> Insert(entries, entry)[i] == entries[i];
      } else if KeyBefore(entry.key, entries[0].key) {
        assert i > 0 ==> Insert(entries, entry)[i] == entries[i - 1];
      } else if i > 0 {
        InsertedFrom(rest, entry, i - 1);
        var e := Insert(entries, entry)[i];
        assert e == Insert(rest, entry)[i - 1];
        if e != entry {
          var k: nat :| k < |rest| && (e == rest[k] || e == rest[k].(value := entry.value));
          assert rest[k] == entries[k + 1];
        }
      } else {
        assert Insert(entries, entry)[i] == entries[0];
      }
    }
  }

  lemma {:induction false} CloneTwice(v: Value)
    ensures CloneValue(CloneValue(v)) == CloneValue(v)
    decreases v, 1
  {
    match v
    case Tuple(items, _) => ItemsCloneTwice(items);
    case Record(entries) => EntriesCloneTwice(entries);
    case _ =>
  }

  lemma {:induction false} ItemsCloneTwice(items: seq<Value>)
    ensures CloneValues(CloneValues(items)) == CloneValues(items)
    decreases items, 0
  {
    if items != [] {
      ItemsCloneTwice(items[..|items| - 1]);
      CloneTwice(items[|items| - 1]);
      var clones := CloneValues(items);
      assert clones[..|clones| - 1] == CloneValues(items[..|items| - 1]);
    }
  }

  lemma {:induction false} EntriesCloneTwice(entries: seq<Entry>)
    ensures CloneEntries(CloneEntries(entries)) == CloneEntries(entries)
    decreases entries, 0
  {
    if entries != [] {
      EntriesCloneTwice(entries[..|entries| - 1]);
      CloneTwice(entries[|entries| - 1].value);
      var clones := CloneEntries(entries);
      assert clones[..|clones| - 1] == CloneEntries(entries[..|entries| - 1]);
    }
  }

  lemma {:induction false} InsertLength(entries: seq<Entry>, entry: Entry)
    requires KeysAscend(entries)
    ensures |Insert(entries, entry)| == |entries| + if Lookup(entries, entry.key).Some? then 0 else 1
    decreases |entries|
  {
    hide KeyBefore;
    if entries != [] && entries[0].key != entry.key {
      if KeyBefore(entry.key, entries[0].key) {
        AbsentBelow(entries, entry.key);
      } else {
        InsertLength(entries[1..], entry);
      }
    }
  }

  // Some limits let the set through and are passed by its result, exactly when
  // one of the two projections does not cover it.
  lemma SetLimitIsPassed(entries: seq<Entry>, key: string, keyCapacity: nat, value: Value)
    requires Settable(entries, value)
    ensures (exists limits :: SetPassesLimit(limits, entries, key, keyCapacity, value))
       <==> !(CountIsExact(entries, key, value) && HeapIsCovered(entries, key, keyCapacity, value))
  {
    hide Settable, SetRecord, CountIsExact, HeapIsCovered, ProjectedSetElements, ProjectedSetBytes, Elements, Bytes, Cap;
    SetProjectsElements(entries, key, value);
    SetProjectsHeap(entries, key, keyCapacity, value);
    var elements := ProjectedSetElements(entries, key, CloneValue(value));
    var bytes := ProjectedSetBytes(entries, key, keyCapacity, CloneValue(value));
    if !(CountIsExact(entries, key, value) && HeapIsCovered(entries, key, keyCapacity, value)) {
      assert SetPassesLimit(Limits(elements, bytes), entries, key, keyCapacity, value);
    }
  }

  ghost predicate SetPassesLimit(limits: Limits, entries: seq<Entry>, key: string, keyCapacity: nat, value: Value) {
    && CheckCollectionLimits(limits, ProjectedSetElements(entries, key, CloneValue(value)),
                             ProjectedSetBytes(entries, key, keyCapacity, CloneValue(value))) == None
    && (|| Cap(Elements(SetRecord(entries, key, value))) > limits.maxCollectionElements
        || Cap(Bytes(SetRecord(entries, key, value))) > limits.maxHeapBytes)
  }

  // Two towers of shared arrays in a record: replacing one of them checks a
  // record of one element, and keeps the other.
  lemma SaturatedSetPassesLimit() returns (entries: seq<Entry>)
    ensures Settable(entries, Na) && Accounted(Record(entries), true) && Lookup(entries, "a").Some?
    ensures SetPassesLimit(Limits(1, 100), entries, "a", 1, Na)
    ensures Elements(SetRecord(entries, "a", Na)) > U64_MAX
  {
    var tower := Tower(64);
    TowerIsHuge(64);
    PowerOfLevels();
    ExactIsSafe(tower);
    entries := [Entry("a", 1, tower), Entry("b", 1, tower)];
    TwoEntries(entries, tower);
    hide *;
    TowersPassLimit(entries, tower);
  }

  lemma TowersPassLimit(entries: seq<Entry>, v: Value)
    requires entries == [Entry("a", 1, v), Entry("b", 1, v)] && Settable(entries, Na)
    requires Lookup(entries, "a") == Some(v) && Elements(Record(entries)) == 2 + 2 * Elements(v)
    requires Accounted(v, true) && Elements(v) >= U64_MAX && Bytes(v) >= U64_MAX
    ensures SetPassesLimit(Limits(1, 100), entries, "a", 1, Na)
    ensures Elements(SetRecord(entries, "a", Na)) > U64_MAX
  {
    hide ResourceUsage, CloneValue, Elements, Bytes, Accounted, SetRecord, Lookup, Settable, ProjectedSetElements, ProjectedSetBytes;
    UsageIsRecount(v, true);
    NothingIsEmpty();
    SaturatedProjections(entries, v);
    SetElements(entries, "a", Na);
  }

  lemma NothingIsEmpty()
    ensures Elements(Na) == 0 && CloneValue(Na) == Na && ResourceUsage(Na) == Usage(0, 0)
  {
  }

  lemma TwoEntries(entries: seq<Entry>, v: Value)
    requires entries == [Entry("a", 1, v), Entry("b", 1, v)]
    requires Accounted(v, true) && Accounted(v, false) && WellSized(v)
    ensures Settable(entries, Na) && Accounted(Record(entries), true)
    ensures Lookup(entries, "a") == Some(v) && Elements(Record(entries)) == 2 + 2 * Elements(v)
  {
    assert ByteLength("a") == 1 && ByteLength("b") == 1 by {
      assert "a"[1..] == "" && "b"[1..] == "";
    }
    assert KeyBefore("a", "b");
    assert entries[..1] == [entries[0]] && entries[..1][..0] == [];
    assert NestedEntryElements([entries[0]]) == Elements(v);
  }

  lemma SaturatedProjections(entries: seq<Entry>, v: Value)
    requires entries == [Entry("a", 1, v), Entry("b", 1, v)] && Lookup(entries, "a") == Some(v)
    requires Settable(entries, Na)
    requires ResourceUsage(v).elements == U64_MAX && ResourceUsage(v).bytes == U64_MAX
    ensures ProjectedSetElements(entries, "a", CloneValue(Na)) == 1
    ensures ProjectedSetBytes(entries, "a", 1, CloneValue(Na)) == SIZE_OF_STRING + 1
  {
    assert CloneValue(Na) == Na && ResourceUsage(Na) == Usage(0, 0);
    hide ResourceUsage, Lookup, CloneValue;
    assert RecordElements(entries) <= U64_MAX && RecordHeapBytes(entries) <= U64_MAX;
  }

  // With a new key the limit that was just checked can indeed be passed.
  lemma SetCanOvershootHeapLimit() returns (limits: Limits)
    ensures Settable([], Na)
    ensures CheckCollectionLimits(limits, ProjectedSetElements([], "", Na), ProjectedSetBytes([], "", 0, Na)) == None
    ensures ResourceUsage(SetRecord([], "", Na)).bytes > limits.maxHeapBytes
  {
    limits := Limits(1, SIZE_OF_MAP + SIZE_OF_STRING);
    var entry := Entry("", 0, Na);
    assert [entry][..0] == [];
    assert AddEntryUsages(Usage(0, SIZE_OF_MAP), []) == Usage(0, SIZE_OF_MAP);
  }

  lemma RecordRecount(entries: seq<Entry>)
    ensures Elements(Record(entries)) == |entries| + NestedEntryElements(entries)
    ensures Accounted(Record(entries), false) == EntriesAccounted(entries, false)
    ensures EntriesAccounted(entries, false) ==> RecordElements(entries) == Cap(Elements(Record(entries)))
  {
    RecordParts(entries);
    hide Accounted, EntriesAccounted, Elements, AddEntryUsages, NestedEntryElements;
    if EntriesAccounted(entries, false) {
      EntryUsagesAreRecount(|entries|, 0, entries, false);
    }
  }

  lemma RecordParts(entries: seq<Entry>)
    ensures Elements(Record(entries)) == |entries| + NestedEntryElements(entries)
    ensures Accounted(Record(entries), false) == EntriesAccounted(entries, false)
  {
  }

  lemma ReplacedElements(total: nat, removed: nat, added: nat)
    requires 1 + removed <= total
    ensures var projected := Cap(Cap(SatSub(Cap(total), Cap(1 + Cap(removed))) + 1) + Cap(added));
            && projected <= Cap(total - removed + added)
            && (projected == Cap(total - removed + added)
                <==> (total <= U64_MAX || total == 1 + removed || 1 + added >= Cap(1 + removed)))
  {
  }

  lemma AddedElements(total: nat, added: nat)
    ensures Cap(Cap(SatSub(Cap(total), 0) + 1) + Cap(added)) == Cap(total + 1 + added)
  {
  }
}
