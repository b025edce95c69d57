/** Building a response from what a model returns, and parsing it in the client
    (dispatch/base.py:82-125, client.py:66-86). */
module Responses {
  import opened Requests
  import opened NumpyArrays
  import opened Tensors

  datatype Response = Response(responseId: string, modelId: string, latencyMs: real, packed: Envelope)

  /** What a model callable returns: a dictionary, or anything else, with the array that `np.asarray` makes
      of it. */
  datatype RawResult = Keyed(entries: seq<Entry>) | Single(asArray: Option<Array>)

  function EntriesOf(raw: RawResult): (entries: seq<Entry>) {
    match raw
    case Keyed(entries) => entries
    case Single(asArray) => [Entry("actions", Other(asArray))]
  }

  /** A string, or something from which `np.asarray` makes an array whose element type the wire knows. */
  predicate Sendable(v: Value) {
    match Convert(v)
    case Arr(a) => FromNumpy(a.dtype).Some?
    case Text(_) => true
    case Other(_) => false
  }

  /** `_build_result`; None when it raises, which the dispatcher turns into an error result. Lists, numbers
      and whatever else converts to an array are sent as arrays. */
  method BuildResponse(modelId: string, responseId: string, latencyMs: real, raw: RawResult)
    returns (built: Option<(Response, Bytes)>)
    ensures built.Some? <==> forall i :: 0 <= i < |EntriesOf(raw)| ==> Sendable(EntriesOf(raw)[i].value)
    ensures built.Some? ==>
              var r := built.value.0;
              && r.responseId == responseId && r.modelId == modelId && r.latencyMs == latencyMs
              && Packed(r.packed, built.value.1, Converted(EntriesOf(raw)))
  {
    var packed := Pack(EntriesOf(raw), true);
    SendableIff(EntriesOf(raw));
    built := if packed.None? then None
             else Some((Response(responseId, modelId, latencyMs, packed.value.0), packed.value.1));
  }

  lemma SendableIff(entries: seq<Entry>)
    ensures (forall i :: 0 <= i < |entries| ==> Sendable(entries[i].value))
            <==> Typed(Arrays(Converted(entries))) && forall e :: e in Converted(entries) ==> !Unpackable(e)
  {
    var items := Converted(entries);
    TypedIff(items);
    if forall i :: 0 <= i < |entries| ==> Sendable(entries[i].value) {
      forall i | 0 <= i < |items| && items[i].value.Arr? ensures FromNumpy(items[i].value.content.dtype).Some? {
        assert Sendable(entries[i].value);
      }
      forall e | e in items ensures !Unpackable(e) {
        var i :| 0 <= i < |items| && items[i] == e;
        assert Sendable(entries[i].value);
      }
    }
    if Typed(Arrays(items)) && forall e :: e in items ==> !Unpackable(e) {
      forall i | 0 <= i < |entries| ensures Sendable(entries[i].value) {
        assert items[i] in items;
      }
    }
  }

  lemma {:induction false} TypedIff(entries: seq<Entry>)
    ensures Typed(Arrays(entries))
            <==> forall i :: 0 <= i < |entries| && entries[i].value.Arr? ==>
                   FromNumpy(entries[i].value.content.dtype).Some?
  {
    if entries != [] {
      var front, last := entries[..|entries| - 1], entries[|entries| - 1];
      assert forall i :: 0 <= i < |front| ==> front[i] == entries[i];
      TypedIff(front);
      if Typed(Arrays(entries)) {
        TypedPrefix(entries, |front|);
      }
      if Typed(Arrays(front)) && last.value.Arr? {
        DescribeStep(Arrays(front), NamedArray(last.key, last.value.content));
      }
    }
  }

  // ---------- Parsing ----------

  /** What a parsed response holds under a key: something unpacked, or the latency. */
  datatype Field = Item(value: Value) | Milliseconds(ms: real)

  function Items(m: map<string, Value>): (fields: map<string, Field>) {
    map k | k in m :: Item(m[k])
  }

  /** The fields that every parsed response has. */
  function Fixed(r: Response): (fields: map<string, Field>) {
    map["response_id" := Item(Text(r.responseId)), "model_id" := Item(Text(r.modelId)),
        "inference_latency_ms" := Milliseconds(r.latencyMs)]
  }

  predicate Kept(t: Tensor) {
    t.length > 0 && t.dtype != Unspecified
  }

  /** `_parse_response`: empty tensors are skipped; a tensor that cannot be read raises. */
  method ParseResponse(r: Response, payload: Bytes) returns (output: Option<map<string, Field>>)
    ensures output == Parsed(r, payload)
  {
    var result := Fixed(r);
    var ts := r.packed.tensors;
    assert ReadAll([], payload) == Some(map[]);
    assert Fixed(r) + Items(map[]) == Fixed(r);
    for n := 0 to |ts|
      invariant Some(result) == ParsedUpTo(r, payload, n)
    {
      var t := ts[n];
      ParseStep(r, payload, n);
      hide ParsedUpTo, Fixed;
      if t.length > 0 && t.dtype != Unspecified {
        var a := ReadTensor(t, payload);
        if a.None? {
          ParseFails(r, payload, n + 1);
          return None;
        }
        result := result[t.key := Item(Arr(a.value))];
      }
    }
    assert ts[..|ts|] == ts;
    output := Some(result + Items(TextValues(r.packed.metadata)));
  }

  /** The fixed fields and the first `n` tensors. */
  ghost function ParsedUpTo(r: Response, payload: Bytes, n: nat): (parsed: Option<map<string, Field>>)
    requires n <= |r.packed.tensors|
  {
    var read := ReadAll(Filter(r.packed.tensors[..n], Kept), payload);
    if read.None? then None else Some(Fixed(r) + Items(read.value))
  }

  ghost function Parsed(r: Response, payload: Bytes): (parsed: Option<map<string, Field>>) {
    var read := ReadAll(Filter(r.packed.tensors, Kept), payload);
    if read.None? then None else Some(Fixed(r) + Items(read.value) + Items(TextValues(r.packed.metadata)))
  }

  lemma ParseStep(r: Response, payload: Bytes, n: nat)
    requires n < |r.packed.tensors| && ParsedUpTo(r, payload, n).Some?
    ensures var t := r.packed.tensors[n];
            ParsedUpTo(r, payload, n + 1)
            == if !Kept(t) then ParsedUpTo(r, payload, n)
               else if ReadTensor(t, payload).None? then None
               else Some(ParsedUpTo(r, payload, n).value[t.key := Item(Arr(ReadTensor(t, payload).value))])
  {
    var ts := r.packed.tensors;
    var t, before := ts[n], Filter(ts[..n], Kept);
    assert ts[..n + 1] == ts[..n] + [t];
    FilterSnoc(ts[..n], t, Kept);
    ReadStep(before, t, payload);
    if Kept(t) && ReadTensor(t, payload).Some? {
      var v := Arr(ReadTensor(t, payload).value);
      ItemsUpdate(Fixed(r), ReadAll(before, payload).value, t.key, v);
    }
  }

  lemma ItemsUpdate(m: map<string, Field>, n: map<string, Value>, k: string, v: Value)
    ensures m + Items(n[k := v]) == (m + Items(n))[k := Item(v)]
  {
  }

  lemma ReadStep(ts: seq<Tensor>, t: Tensor, payload: Bytes)
    requires ReadAll(ts, payload).Some?
    ensures ReadAll(ts + [t], payload)
            == if ReadTensor(t, payload).None? then None
               else Some(ReadAll(ts, payload).value[t.key := Arr(ReadTensor(t, payload).value)])
  {
    assert (ts + [t])[..|ts|] == ts;
  }

  lemma ParseFails(r: Response, payload: Bytes, n: nat)
    requires n <= |r.packed.tensors| && ParsedUpTo(r, payload, n).None?
    ensures Parsed(r, payload).None?
  {
    var ts := r.packed.tensors;
    assert ts == ts[..n] + ts[n..];
    FilterAppend(ts[..n], ts[n..], Kept);
    var p, q := Filter(ts[..n], Kept), Filter(ts[n..], Kept);
    assert (p + q)[..|p|] == p;
    ReadAllPrefix(p + q, |p|, payload);
  }

  lemma FilterSnoc<T(!new)>(q: seq<T>, x: T, keep: T -> bool)
    ensures Filter(q + [x], keep) == if keep(x) then Filter(q, keep) + [x] else Filter(q, keep)
  {
    FilterAppend(q, [x], keep);
    assert Filter(q, keep) + [] == Filter(q, keep);
  }

  // ---------- Round trip ----------

  predicate Filled(a: NamedArray) {
    a.content.data != []
  }

  /** An entry that survives the round trip: anything but an empty array. */
  predicate Returned(e: Entry) {
    !(e.value.Arr? && e.value.content.data == [])
  }

  /** Skipping empty tensors is as if the empty arrays had never been packed: they take no bytes. */
  lemma {:induction false} KeptIsFilled(arrays: seq<NamedArray>)
    requires Typed(arrays)
    ensures Typed(Filter(arrays, Filled)) && Joined(Filter(arrays, Filled)) == Joined(arrays)
    ensures Filter(Described(arrays), Kept) == Described(Filter(arrays, Filled))
  {
    if arrays != [] {
      var front, last := arrays[..|arrays| - 1], arrays[|arrays| - 1];
      assert arrays == front + [last];
      KeptIsFilled(front);
      OneMoreKept(front, last);
    }
  }

  lemma OneMoreKept(front: seq<NamedArray>, last: NamedArray)
    requires Typed(front + [last]) && Typed(front) && Typed(Filter(front, Filled))
    requires Joined(Filter(front, Filled)) == Joined(front)
    requires Filter(Described(front), Kept) == Described(Filter(front, Filled))
    ensures var arrays := front + [last];
            && Typed(Filter(arrays, Filled)) && Joined(Filter(arrays, Filled)) == Joined(arrays)
            && Filter(Described(arrays), Kept) == Described(Filter(arrays, Filled))
  {
    var kept, offset := Filter(front, Filled), |Joined(front)|;
    DescribeStep(front, last);
    DescribeStep(kept, last);
    TypeRoundTrip(last.content.dtype);
    FilterSnoc(front, last, Filled);
    FilterSnoc(Described(front), Descriptor(last, offset), Kept);
    hide Described, Joined, Filter, Typed, FromNumpy;
    if last.content.data == [] {
      assert Joined(front) + [] == Joined(front);
    }
  }

  lemma {:induction false} ReturnedEntries(entries: seq<Entry>)
    ensures Arrays(Filter(entries, Returned)) == Filter(Arrays(entries), Filled)
    ensures Texts(Filter(entries, Returned)) == Texts(entries)
  {
    if entries != [] {
      var front, last := entries[..|entries| - 1], entries[|entries| - 1];
      assert entries == front + [last];
      ReturnedEntries(front);
      FilterSnoc(front, last, Returned);
      var kept := Filter(front, Returned);
      assert (kept + [last])[..|kept|] == kept;
      if last.value.Arr? {
        FilterSnoc(Arrays(front), NamedArray(last.key, last.value.content), Filled);
      }
    }
  }

  lemma {:induction false} FilterDistinctKeys(entries: seq<Entry>)
    requires DistinctKeys(entries)
    ensures DistinctKeys(Filter(entries, Returned))
  {
    if entries != [] {
      var rest := Filter(entries[1..], Returned);
      FilterDistinctKeys(entries[1..]);
      FilterElements(entries[1..], Returned);
      forall i | 0 <= i < |rest| ensures rest[i].key != entries[0].key {
        assert rest[i] in rest;
      }
    }
  }

  /** What comes back of the entries of a result: converted to arrays, in native order, without empty
      arrays. */
  ghost function Survivors(entries: seq<Entry>): (items: seq<Entry>) {
    Filter(AllAsRead(Converted(entries)), Returned)
  }

  /** Response round trip: parsing what was built gives the fixed fields, overridden by every entry as it
      converts and as it is read; only empty arrays are lost, without a trace. */
  lemma ResponseRoundTrip(r: Response, payload: Bytes, entries: seq<Entry>)
    requires Packed(r.packed, payload, Converted(entries))
    requires DistinctKeys(entries) && AllSupported(Arrays(Converted(entries)))
    ensures Parsed(r, payload) == Some(Fixed(r) + Items(Dictionary(Survivors(entries))))
  {
    var items := AllAsRead(Converted(entries));
    var arrays, returned := Arrays(items), Filter(items, Returned);
    hide Described, Joined, Filter, ReadAll, AllAsRead, Arrays, Texts;
    WireForgetsOrder(Converted(entries));
    ReadsFilled(arrays);
    ReturnedEntries(items);
    FilterDistinctKeys(items);
    ArraysAndTexts(returned);
    ItemsAdd(Fixed(r), ArrayValues(Filter(arrays, Filled)), TextValues(Texts(returned)));
  }

  /** Reading what was packed, empty tensors skipped, gives the arrays that are not empty. */
  lemma ReadsFilled(arrays: seq<NamedArray>)
    requires AllSupported(arrays) && AllNative(arrays)
    ensures Typed(arrays)
    ensures ReadAll(Filter(Described(arrays), Kept), Joined(arrays)) == Some(ArrayValues(Filter(arrays, Filled)))
  {
    var kept := Filter(arrays, Filled);
    hide Described, Joined, Filter, ReadAll;
    FilledSupported(arrays);
    KeptIsFilled(arrays);
    ReadsAllBack(kept, |kept|);
    assert Described(kept)[..|kept|] == Described(kept) && kept[..|kept|] == kept;
  }

  lemma ItemsAdd(m: map<string, Field>, n: map<string, Value>, o: map<string, Value>)
    ensures m + Items(n) + Items(o) == m + Items(n + o)
  {
  }

  lemma FilledSupported(arrays: seq<NamedArray>)
    requires AllSupported(arrays) && AllNative(arrays)
    ensures Typed(arrays) && AllSupported(Filter(arrays, Filled)) && AllNative(Filter(arrays, Filled))
  {
    AllSupportedTyped(arrays);
    var kept := Filter(arrays, Filled);
    FilterElements(arrays, Filled);
    forall i | 0 <= i < |kept| ensures kept[i].content.Supported() && kept[i].content.InNativeOrder() {
      assert kept[i] in kept;
    }
  }

  /** What the client gets exactly as the model returned it: a string, or an array that is not empty and
      whose multi-byte elements are in native order. */
  predicate ComesBack(e: Entry) {
    Survives(e.value) && Returned(e)
  }

  /** The client gets, over the fixed fields, everything as the model returned it if and only if this holds of
      each entry. */
  lemma ResponseIsExactIff(r: Response, payload: Bytes, entries: seq<Entry>)
    requires Packed(r.packed, payload, Converted(entries))
    requires DistinctKeys(entries) && AllSupported(Arrays(Converted(entries)))
    ensures Parsed(r, payload) == Some(Fixed(r) + Items(Arguments(entries)))
            <==> forall e :: e in entries ==> ComesBack(e)
  {
    hide Packed, Parsed, AllSupported, Fixed, Arguments, Dictionary, Survivors, ComesBack;
    ResponseRoundTrip(r, payload, entries);
    if forall e :: e in entries ==> ComesBack(e) {
      NothingChanges(entries);
    }
    if Fixed(r) + Items(Dictionary(Survivors(entries))) == Fixed(r) + Items(Arguments(entries)) {
      forall i | 0 <= i < |entries| ensures ComesBack(entries[i]) {
        CameBack(r, entries, i);
      }
    }
  }

  lemma NothingChanges(entries: seq<Entry>)
    requires AllSupported(Arrays(Converted(entries))) && forall e :: e in entries ==> ComesBack(e)
    ensures Dictionary(Survivors(entries)) == Arguments(entries)
  {
    assert forall i :: 0 <= i < |entries| ==> entries[i] in entries;
    assert Converted(entries) == entries;
    forall i | 0 <= i < |entries| ensures AllAsRead(entries)[i] == entries[i] {
      if entries[i].value.Arr? {
        ArrayOf(entries, i);
        RereadIsSameIff(entries[i].value.content);
      }
    }
    assert AllAsRead(entries) == entries;
    FilterUniform(entries, Returned, true);
    AllPackable(entries);
  }

  lemma CameBack(r: Response, entries: seq<Entry>, i: nat)
    requires DistinctKeys(entries) && AllSupported(Arrays(Converted(entries))) && i < |entries|
    requires Fixed(r) + Items(Dictionary(Survivors(entries))) == Fixed(r) + Items(Arguments(entries))
    ensures ComesBack(entries[i])
  {
    var e, back := entries[i], Dictionary(Survivors(entries));
    hide Arrays, AllSupported, Dictionary, Arguments, Survivors, ComesBack, Fixed, Items, DistinctKeys;
    ArgumentsHold(entries, i);
    Overlaid(Fixed(r), back, e.key);
    Overlaid(Fixed(r), Arguments(entries), e.key);
    FixedAreTexts(r, e.key, e.value);
    if e.key !in back {
      TextIsBack(entries, i);
    }
    BackUnderKey(entries, i);
  }

  lemma Overlaid(m: map<string, Field>, n: map<string, Value>, key: string)
    ensures key in n ==> key in m + Items(n) && (m + Items(n))[key] == Item(n[key])
    ensures key !in n && key in m + Items(n) ==> key in m && (m + Items(n))[key] == m[key]
  {
  }

  lemma FixedAreTexts(r: Response, key: string, v: Value)
    ensures key in Fixed(r) && Fixed(r)[key] == Item(v) ==> v.Text?
  {
  }

  lemma TextIsBack(entries: seq<Entry>, i: nat)
    requires DistinctKeys(entries) && i < |entries| && entries[i].value.Text?
    ensures entries[i].key in Dictionary(Survivors(entries))
  {
    var items := AllAsRead(Converted(entries));
    hide Arrays, Dictionary;
    FilterDistinctKeys(items);
    FilterElements(items, Returned);
    assert items[i] in items;
    UnderKey(Survivors(entries), entries[i].key);
  }

  lemma BackUnderKey(entries: seq<Entry>, i: nat)
    requires DistinctKeys(entries) && AllSupported(Arrays(Converted(entries))) && i < |entries|
    requires entries[i].key in Dictionary(Survivors(entries))
    requires Dictionary(Survivors(entries))[entries[i].key] == entries[i].value
    ensures ComesBack(entries[i])
  {
    var e, items := entries[i], AllAsRead(Converted(entries));
    hide Arrays, AllSupported, Dictionary, Product;
    FilterDistinctKeys(items);
    FilterElements(items, Returned);
    UnderKey(Survivors(entries), e.key);
    var x :| x in Survivors(entries) && !Unpackable(x) && x.key == e.key;
    var j :| 0 <= j < |items| && items[j] == x;
    assert j == i && AsRead(Convert(e.value)) == e.value;
    if e.value.Arr? {
      ArrayOf(Converted(entries), i);
      RereadIsSameIff(e.value.content);
    }
  }

  /** A model that returns a single array: the client finds it under `actions`, next to the identity of the
      response, the model and the latency under their own names. */
  lemma SingleArrayComesBack(r: Response, payload: Bytes, a: Array)
    requires Packed(r.packed, payload, Converted(EntriesOf(Single(Some(a)))))
    requires a.Supported() && a.data != [] && a.InNativeOrder()
    ensures Parsed(r, payload)
            == Some(map["response_id" := Item(Text(r.responseId)), "model_id" := Item(Text(r.modelId)),
                        "inference_latency_ms" := Milliseconds(r.latencyMs), "actions" := Item(Arr(a))])
  {
    var item := [Entry("actions", Arr(a))];
    SingleItem(a);
    hide Packed, Parsed, AllSupported, Arguments, Arrays, Converted, EntriesOf, DistinctKeys, Fixed, Array.Supported;
    ResponseIsExactIff(r, payload, item);
    OverlayActions(r, Item(Arr(a)));
  }

  lemma SingleItem(a: Array)
    requires a.Supported() && a.data != [] && a.InNativeOrder()
    ensures var item := [Entry("actions", Arr(a))];
            && Converted(EntriesOf(Single(Some(a)))) == item && Converted(item) == item
            && DistinctKeys(item) && AllSupported(Arrays(item)) && (forall e :: e in item ==> ComesBack(e))
            && Items(Arguments(item)) == map["actions" := Item(Arr(a))]
  {
    var item := [Entry("actions", Arr(a))];
    hide Product;
    assert Converted(EntriesOf(Single(Some(a)))) == item && Converted(item) == item;
    assert item[..|item| - 1] == [] && Arrays([]) == [];
    assert Arrays(item) == [] + [NamedArray("actions", a)] && Arguments([]) == map[];
    assert Arguments(item) == Arguments([])["actions" := Arr(a)] == map["actions" := Arr(a)];
    assert Items(Arguments(item)) == map["actions" := Item(Arr(a))];
  }

  lemma OverlayActions(r: Response, f: Field)
    ensures Fixed(r) + map["actions" := f]
            == map["response_id" := Item(Text(r.responseId)), "model_id" := Item(Text(r.modelId)),
                   "inference_latency_ms" := Milliseconds(r.latencyMs), "actions" := f]
  {
  }

  /** What the client finds under the key of an entry, if it is not the name of a fixed field. */
  ghost function Expected(v: Value): (found: Option<Field>) {
    match v
    case Text(text) => Some(Item(Text(text)))
    case Arr(a) => if a.data == [] then None else Some(Item(Arr(a.Reread())))
    case Other(Some(a)) => if a.data == [] then None else Some(Item(Arr(a.Reread())))
    case Other(None) => None
  }

  /** A model that returns a dictionary: the fixed fields come back under their names, and what the model returned
      under other names, lists and numbers converted to arrays, under these. */
  lemma DictionaryComesBack(r: Response, payload: Bytes, entries: seq<Entry>, i: nat)
    requires Packed(r.packed, payload, Converted(EntriesOf(Keyed(entries)))) && i < |entries|
    requires DistinctKeys(entries) && AllSupported(Arrays(Converted(entries)))
    requires forall e :: e in entries ==> e.key !in ["response_id", "model_id", "inference_latency_ms"]
    ensures Parsed(r, payload).Some?
    ensures var fields := Parsed(r, payload).value;
            && Under(fields, "response_id") == Some(Item(Text(r.responseId)))
            && Under(fields, "model_id") == Some(Item(Text(r.modelId)))
            && Under(fields, "inference_latency_ms") == Some(Milliseconds(r.latencyMs))
            && Under(fields, entries[i].key) == Expected(entries[i].value)
  {
    var back := Dictionary(Survivors(entries));
    hide Packed, Parsed, Arrays, AllSupported, Dictionary, Survivors, AllAsRead, Converted, Expected;
    hide DistinctKeys, Items;
    ResponseRoundTrip(r, payload, entries);
    OtherKeys(entries, AllAsRead(Converted(entries)));
    EntryIsBack(entries, i);
    assert entries[i] in entries;
    FixedUnder(r, back, entries[i].key);
  }

  lemma FixedUnder(r: Response, back: map<string, Value>, key: string)
    requires forall k :: k in back ==> k !in ["response_id", "model_id", "inference_latency_ms"]
    requires key !in ["response_id", "model_id", "inference_latency_ms"]
    ensures var fields := Fixed(r) + Items(back);
            && Under(fields, "response_id") == Some(Item(Text(r.responseId)))
            && Under(fields, "model_id") == Some(Item(Text(r.modelId)))
            && Under(fields, "inference_latency_ms") == Some(Milliseconds(r.latencyMs))
            && Under(fields, key) == Under(Items(back), key)
  {
  }

  function Under(fields: map<string, Field>, key: string): (found: Option<Field>) {
    if key in fields then Some(fields[key]) else None
  }

  lemma EntryIsBack(entries: seq<Entry>, i: nat)
    requires DistinctKeys(entries) && i < |entries|
    ensures Under(Items(Dictionary(Survivors(entries))), entries[i].key) == Expected(entries[i].value)
  {
    var items, key := AllAsRead(Converted(entries)), entries[i].key;
    FilterDistinctKeys(items);
    FilterElements(items, Returned);
    OtherKeys(entries, items);
    UnderKey(Survivors(entries), key);
    hide Dictionary, Filter;
    assert items[i] in items;
  }

  /** What comes back has no other keys, and at most one entry has a given key. */
  lemma OtherKeys(entries: seq<Entry>, items: seq<Entry>)
    requires items == AllAsRead(Converted(entries)) && DistinctKeys(entries)
    ensures forall k :: k in Dictionary(Survivors(entries)) ==> exists i :: 0 <= i < |entries| && entries[i].key == k
    ensures forall i, x :: 0 <= i < |entries| && x in items && x.key == entries[i].key ==> x == items[i]
  {
    forall k | k in Dictionary(Survivors(entries)) ensures exists i :: 0 <= i < |entries| && entries[i].key == k {
      PackedUnderKey(Survivors(entries), k);
      FilterElements(items, Returned);
      var x :| x in Survivors(entries) && !Unpackable(x) && x.key == k;
      var j :| 0 <= j < |items| && items[j] == x;
      assert entries[j].key == k;
    }
    forall i, x | 0 <= i < |entries| && x in items && x.key == entries[i].key ensures x == items[i] {
      var j :| 0 <= j < |items| && items[j] == x;
      assert entries[j].key == entries[i].key;
    }
  }

  /** Texts of the metadata go over tensors and fixed fields of the same name, and tensors over fixed fields. */
  lemma WhatGoesOver(r: Response, payload: Bytes)
    requires Parsed(r, payload).Some?
    ensures var ts, fields := Filter(r.packed.tensors, Kept), Parsed(r, payload).value;
            && (forall k :: k in r.packed.metadata ==> Under(fields, k) == Some(Item(Text(r.packed.metadata[k]))))
            && (forall i :: LastOfItsKey(ts, i) && ts[i].key !in r.packed.metadata ==>
                  && ReadTensor(ts[i], payload).Some?
                  && Under(fields, ts[i].key) == Some(Item(Arr(ReadTensor(ts[i], payload).value))))
  {
    hide ReadAll, ReadTensor, Filter, LastOfItsKey, Fixed, Items, TextValues;
    ReadAllHolds(Filter(r.packed.tensors, Kept), payload);
    OverlaidTwice(Fixed(r), ReadAll(Filter(r.packed.tensors, Kept), payload).value, r.packed.metadata);
  }

  lemma OverlaidTwice(m: map<string, Field>, n: map<string, Value>, texts: map<string, string>)
    ensures var fields := m + Items(n) + Items(TextValues(texts));
            && (forall k :: k in texts ==> Under(fields, k) == Some(Item(Text(texts[k]))))
            && (forall k :: k in n && k !in texts ==> Under(fields, k) == Some(Item(n[k])))
  {
  }

  /** Tensors without bytes or without a type might as well not be in the message. */
  lemma SkippedMakeNoDifference(r: Response, payload: Bytes)
    ensures var rest := Filter(r.packed.tensors, (t: Tensor) => t.length > 0 && t.dtype != Unspecified);
            Parsed(r.(packed := r.packed.(tensors := rest)), payload) == Parsed(r, payload)
  {
    var some := (t: Tensor) => t.length > 0 && t.dtype != Unspecified;
    FilterFilter(r.packed.tensors, some, Kept, some);
    FilterAgree(r.packed.tensors, some, Kept);
  }

  /** An empty array is packed and gone. */
  lemma EmptyArrayIsDropped(r: Response)
    requires r.packed == Envelope([Tensor("x", Float32, [0], 0, 0)], map[])
    ensures var empty := Array(NpType(NpFloat32, Native), [0], []);
            && Packed(r.packed, [], Converted([Entry("x", Arr(empty))])) && Parsed(r, []) == Some(Fixed(r))
  {
    var empty := Array(NpType(NpFloat32, Native), [0], []);
    var given, named := [Entry("x", Arr(empty))], NamedArray("x", empty);
    assert Converted(given) == given;
    PackedOne(given, named);
    hide Packed, Fixed;
    assert Filter(r.packed.tensors, Kept) == [] && ReadAll([], []) == Some(map[]) && TextValues(map[]) == map[];
    assert Fixed(r) + Items(map[]) == Fixed(r);
  }

  /** A fixed field arrives if and only if the model returned nothing else under the same key. */
  lemma FixedFieldKeptIff(r: Response, payload: Bytes, entries: seq<Entry>, key: string)
    requires Packed(r.packed, payload, Converted(entries))
    requires DistinctKeys(entries) && AllSupported(Arrays(Converted(entries))) && key in Fixed(r)
    ensures Parsed(r, payload).Some? && key in Parsed(r, payload).value
    ensures Parsed(r, payload).value[key] == Fixed(r)[key]
            <==> forall e :: e in Survivors(entries) && !Unpackable(e) && e.key == key ==>
                   Item(e.value) == Fixed(r)[key]
  {
    ResponseRoundTrip(r, payload, entries);
    FilterDistinctKeys(AllAsRead(Converted(entries)));
    UnderKey(Survivors(entries), key);
  }

  /** What a dictionary holds under a key is what the entries with that key say. */
  lemma UnderKey(entries: seq<Entry>, key: string)
    requires DistinctKeys(entries)
    ensures key in Dictionary(entries) <==> exists e :: e in entries && !Unpackable(e) && e.key == key
    ensures forall e :: e in entries && !Unpackable(e) && e.key == key ==>
              key in Dictionary(entries) && Dictionary(entries)[key] == e.value
  {
    forall e | e in entries && !Unpackable(e) && e.key == key
      ensures key in Dictionary(entries) && Dictionary(entries)[key] == e.value
    {
      var i :| 0 <= i < |entries| && entries[i] == e;
      DictionaryHolds(entries, i);
    }
    if key in Dictionary(entries) {
      PackedUnderKey(entries, key);
    }
  }

  lemma {:induction false} PackedUnderKey(entries: seq<Entry>, key: string)
    requires key in Dictionary(entries)
    ensures exists e :: e in entries && !Unpackable(e) && e.key == key
  {
    var front, last := entries[..|entries| - 1], entries[|entries| - 1];
    assert entries == front + [last];
    if last.key != key || Unpackable(last) {
      PackedUnderKey(front, key);
    }
  }
}
