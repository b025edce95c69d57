/** Tensor packing: the envelope describes the arrays, the payload holds their bytes one after the other
    (client.py:41-63, dispatch/base.py:57-112, observation/slots.py:21-30). */
module Tensors {
  import opened Requests
  import opened NumpyArrays

  /** What is packed under a key: an array, a string, or any other value, with the array that
      `np.asarray` makes of it (None if that raises). */
  datatype Value = Arr(content: Array) | Text(text: string) | Other(asArray: Option<Array>)

  datatype Entry = Entry(key: string, value: Value)

  /** A descriptor. Nothing on the wire keeps a dimension from being negative. */
  datatype Tensor = Tensor(key: string, dtype: DType, shape: seq<int>, offset: nat, length: nat)

  /** The packed part of an envelope. */
  datatype Envelope = Envelope(tensors: seq<Tensor>, metadata: map<string, string>)

  datatype NamedArray = NamedArray(key: string, content: Array)

  // ---------- Packing ----------

  function Arrays(entries: seq<Entry>): (arrays: seq<NamedArray>) {
    if entries == [] then []
    else
      var front, last := Arrays(entries[..|entries| - 1]), entries[|entries| - 1];
      if last.value.Arr? then front + [NamedArray(last.key, last.value.content)] else front
  }

  function Texts(entries: seq<Entry>): (d: map<string, string>) {
    if entries == [] then map[]
    else
      var front, last := Texts(entries[..|entries| - 1]), entries[|entries| - 1];
      if last.value.Text? then front[last.key := last.value.text] else front
  }

  ghost function Joined(arrays: seq<NamedArray>): (bytes: Bytes) {
    if arrays == [] then [] else Joined(arrays[..|arrays| - 1]) + arrays[|arrays| - 1].content.data
  }

  ghost predicate Typed(arrays: seq<NamedArray>) {
    forall i :: 0 <= i < |arrays| ==> FromNumpy(arrays[i].content.dtype).Some?
  }

  /** The descriptors of consecutive arrays. */
  ghost function Described(arrays: seq<NamedArray>): (ts: seq<Tensor>)
    requires Typed(arrays)
    ensures |ts| == |arrays|
  {
    if arrays == [] then []
    else
      var front, last := arrays[..|arrays| - 1], arrays[|arrays| - 1];
      Described(front)
      + [Descriptor(last, |Joined(front)|)]
  }

  function Descriptor(a: NamedArray, offset: nat): (t: Tensor)
    requires FromNumpy(a.content.dtype).Some?
  {
    Tensor(a.key, FromNumpy(a.content.dtype).value, a.content.shape, offset, |a.content.data|)
  }

  ghost predicate Packed(env: Envelope, payload: Bytes, entries: seq<Entry>) {
    && Typed(Arrays(entries))
    && env.tensors == Described(Arrays(entries)) && env.metadata == Texts(entries)
    && payload == Joined(Arrays(entries))
  }

  lemma PackStep(entries: seq<Entry>, n: nat)
    requires n < |entries|
    ensures var e := entries[n];
            && Arrays(entries[..n + 1])
               == (if e.value.Arr? then Arrays(entries[..n]) + [NamedArray(e.key, e.value.content)]
                   else Arrays(entries[..n]))
            && Texts(entries[..n + 1])
               == (if e.value.Text? then Texts(entries[..n])[e.key := e.value.text] else Texts(entries[..n]))
  {
    assert entries[..n + 1][..n] == entries[..n];
  }

  lemma DescribeStep(arrays: seq<NamedArray>, last: NamedArray)
    requires Typed(arrays)
    ensures Joined(arrays + [last]) == Joined(arrays) + last.content.data
    ensures Typed(arrays + [last]) <==> FromNumpy(last.content.dtype).Some?
    ensures FromNumpy(last.content.dtype).Some? ==>
              Described(arrays + [last]) == Described(arrays) + [Descriptor(last, |Joined(arrays)|)]
  {
    assert (arrays + [last])[..|arrays|] == arrays;
    assert forall i :: 0 <= i < |arrays| ==> (arrays + [last])[i] == arrays[i];
    assert (arrays + [last])[|arrays|] == last;
  }

  lemma {:induction false} TypedPrefix(entries: seq<Entry>, n: nat)
    requires n <= |entries| && Typed(Arrays(entries))
    ensures Typed(Arrays(entries[..n]))
    decreases |entries|
  {
    if n == |entries| {
      assert entries[..n] == entries;
    } else {
      var front := entries[..|entries| - 1];
      assert front[..n] == entries[..n];
      assert Arrays(front) <= Arrays(entries);
      assert forall i :: 0 <= i < |Arrays(front)| ==> Arrays(front)[i] == Arrays(entries)[i];
      TypedPrefix(front, n);
    }
  }

  /** `_ndarray_to_tensor`, and the same lines of `_build_observation`. */
  method ToTensor(key: string, a: Array, offset: nat) returns (t: Option<Tensor>, data: Bytes)
    ensures data == a.data && (t.None? <==> FromNumpy(a.dtype).None?)
    ensures t.Some? ==> t.value == Tensor(key, FromNumpy(a.dtype).value, a.shape, offset, |a.data|)
  {
    data := a.data;
    var dtype := FromNumpy(a.dtype);
    t := if dtype.None? then None else Some(Tensor(key, dtype.value, a.shape, offset, |data|));
  }

  /** `np.asarray`, for what is not a string. */
  function Convert(v: Value): (w: Value) {
    if v.Other? && v.asArray.Some? then Arr(v.asArray.value) else v
  }

  function Converted(entries: seq<Entry>): (items: seq<Entry>)
    ensures |items| == |entries|
    ensures forall i :: 0 <= i < |items| ==> items[i] == Entry(entries[i].key, Convert(entries[i].value))
  {
    seq(|entries|, i requires 0 <= i < |entries| => Entry(entries[i].key, Convert(entries[i].value)))
  }

  /** The packing loops. An array without an element type for the wire raises. An observation leaves out
      what is neither an array nor a string; a response converts it, which may raise. */
  method Pack(entries: seq<Entry>, convert: bool) returns (packed: Option<(Envelope, Bytes)>)
    ensures var items := if convert then Converted(entries) else entries;
            && (packed.None? <==> !Typed(Arrays(items)) || (convert && exists e :: e in items && Unpackable(e)))
            && (packed.Some? ==> Packed(packed.value.0, packed.value.1, items))
  {
    ghost var items := if convert then Converted(entries) else entries;
    var tensors: seq<Tensor>, metadata: map<string, string>, payload: Bytes, offset := [], map[], [], 0;
    for n := 0 to |entries|
      invariant Packed(Envelope(tensors, metadata), payload, items[..n]) && offset == |payload|
      invariant convert ==> forall e :: e in items[..n] ==> !Unpackable(e)
    {
      PackedOneMore(Envelope(tensors, metadata), payload, items, n);
      hide Packed, Typed, Arrays, Texts;
      var key := entries[n].key;
      var value := if convert then Convert(entries[n].value) else entries[n].value;
      match value {
        case Arr(a) =>
          var t, data := ToTensor(key, a, offset);
          if t.None? {
            return None;
          }
          tensors := tensors + [t.value];
          payload := payload + data;
          offset := offset + |data|;
        case Text(text) =>
          metadata := metadata[key := text];
        case Other(_) =>
          if convert {
            assert items[n] in items && Unpackable(items[n]);
            return None;
          }
      }
    }
    assert items[..|entries|] == items;
    packed := Some((Envelope(tensors, metadata), payload));
  }

  /** One turn of the packing loop. */
  lemma PackedOneMore(env: Envelope, payload: Bytes, entries: seq<Entry>, n: nat)
    requires n < |entries| && Packed(env, payload, entries[..n])
    ensures match entries[n].value
            case Arr(a) =>
              var dtype := FromNumpy(a.dtype);
              if dtype.None? then !Typed(Arrays(entries))
              else Packed(env.(tensors := env.tensors
                            + [Tensor(entries[n].key, dtype.value, a.shape, |payload|, |a.data|)]),
                          payload + a.data, entries[..n + 1])
            case Text(text) => Packed(env.(metadata := env.metadata[entries[n].key := text]), payload, entries[..n + 1])
            case Other(_) => Packed(env, payload, entries[..n + 1])
  {
    PackStep(entries, n);
    if entries[n].value.Arr? {
      DescribeStep(Arrays(entries[..n]), NamedArray(entries[n].key, entries[n].value.content));
      if Typed(Arrays(entries)) {
        TypedPrefix(entries, n + 1);
      }
    }
  }

  predicate Unpackable(e: Entry) {
    e.value.Other?
  }

  // ---------- Where the descriptors point ----------

  lemma {:induction false} DescriptorAt(arrays: seq<NamedArray>, i: nat)
    requires Typed(arrays) && i < |arrays|
    ensures var t := Described(arrays)[i];
            && t.offset == |Joined(arrays[..i])| && t.length == |arrays[i].content.data| && t.key == arrays[i].key
            && t.shape == arrays[i].content.shape && Some(t.dtype) == FromNumpy(arrays[i].content.dtype)
  {
    if i < |arrays| - 1 {
      var front := arrays[..|arrays| - 1];
      DescriptorAt(front, i);
      assert front[..i] == arrays[..i] && front[i] == arrays[i];
    }
  }

  lemma {:induction false} JoinedSlice(arrays: seq<NamedArray>, i: nat)
    requires i < |arrays|
    ensures var lo := |Joined(arrays[..i])|;
            var hi := lo + |arrays[i].content.data|;
            && hi == |Joined(arrays[..i + 1])| && hi <= |Joined(arrays)|
            && Joined(arrays)[lo..hi] == arrays[i].content.data
  {
    var front := arrays[..|arrays| - 1];
    assert arrays[..i + 1][..i] == arrays[..i];
    if i < |arrays| - 1 {
      JoinedSlice(front, i);
      assert front[..i] == arrays[..i] && front[i] == arrays[i] && front[..i + 1] == arrays[..i + 1];
    } else {
      assert arrays[..i + 1] == arrays;
    }
  }

  predicate Covers(t: Tensor, position: int) {
    t.offset <= position < t.offset + t.length
  }

  /** The descriptors tile the payload: they follow each other without a gap, end where the payload
      ends, and every byte of the payload belongs to exactly one of them. */
  lemma {:induction false} DescriptorsTile(arrays: seq<NamedArray>)
    requires Typed(arrays)
    ensures var ts := Described(arrays);
            && Chained(ts, |Joined(arrays)|)
            && (forall p: nat :: p < |Joined(arrays)| ==> Covered(ts, p))
            && (forall p, i, j :: 0 <= i < j < |ts| && Covers(ts[i], p) ==> !Covers(ts[j], p))
  {
    var ts := Described(arrays);
    forall i | 0 <= i < |ts| ensures Linked(ts, i, |Joined(arrays)|) {
      DescriptorAt(arrays, i);
      JoinedSlice(arrays, i);
      if i + 1 < |ts| {
        DescriptorAt(arrays, i + 1);
      } else {
        assert arrays[..i + 1] == arrays;
      }
    }
    if |ts| > 0 {
      DescriptorAt(arrays, 0);
    }
    forall p: nat | p < |Joined(arrays)| ensures Covered(ts, p) {
      CoveredBefore(ts, |Joined(arrays)|, |ts|, p);
    }
    forall p, i, j | 0 <= i < j < |ts| && Covers(ts[i], p) ensures !Covers(ts[j], p) {
      LaterStartsAfter(ts, |Joined(arrays)|, i, j);
    }
  }

  ghost predicate Covered(ts: seq<Tensor>, p: nat) {
    exists i :: 0 <= i < |ts| && Covers(ts[i], p)
  }

  /** Where descriptor `i` starts; the end of the payload behind the last one. */
  ghost function StartOf(ts: seq<Tensor>, i: nat, end: nat): (start: nat) {
    if i < |ts| then ts[i].offset else end
  }

  ghost predicate Chained(ts: seq<Tensor>, end: nat) {
    && StartOf(ts, 0, end) == 0
    && forall i :: 0 <= i < |ts| ==> Linked(ts, i, end)
  }

  /** Descriptor `i` ends where the next one starts. */
  ghost predicate Linked(ts: seq<Tensor>, i: nat, end: nat)
    requires i < |ts|
  {
    ts[i].offset + ts[i].length == StartOf(ts, i + 1, end)
  }

  lemma {:induction false} CoveredBefore(ts: seq<Tensor>, end: nat, n: nat, p: nat)
    requires Chained(ts, end) && n <= |ts| && p < StartOf(ts, n, end)
    ensures Covered(ts, p)
  {
    assert n > 0 ==> Linked(ts, n - 1, end);
    if n > 0 && !Covers(ts[n - 1], p) {
      CoveredBefore(ts, end, n - 1, p);
    }
  }

  lemma {:induction false} LaterStartsAfter(ts: seq<Tensor>, end: nat, i: nat, j: nat)
    requires Chained(ts, end) && i < j < |ts|
    ensures ts[i].offset + ts[i].length <= ts[j].offset
  {
    assert Linked(ts, j - 1, end);
    if i + 1 < j {
      LaterStartsAfter(ts, end, i, j - 1);
    }
  }

  // ---------- Validation ----------

  predicate SlotAccepted(t: Tensor, size: nat) {
    t.offset + t.length <= size && t.length != 0
  }

  predicate AllAccepted(slots: seq<Tensor>, size: nat) {
    forall i :: 0 <= i < |slots| ==> SlotAccepted(slots[i], size)
  }

  /** `validate_slots`: raises at the first slot that exceeds the payload or is empty. */
  method ValidateSlots(slots: seq<Tensor>, size: nat) returns (rejected: Option<Tensor>)
    ensures rejected.None? <==> AllAccepted(slots, size)
    ensures rejected.Some? ==>
              exists i :: 0 <= i < |slots| && rejected.value == slots[i] && !SlotAccepted(slots[i], size)
                          && forall j :: 0 <= j < i ==> SlotAccepted(slots[j], size)
  {
    for i := 0 to |slots|
      invariant forall j :: 0 <= j < i ==> SlotAccepted(slots[j], size)
    {
      if slots[i].offset + slots[i].length > size {
        return Some(slots[i]);
      }
      if slots[i].length == 0 {
        return Some(slots[i]);
      }
    }
    rejected := None;
  }

  ghost predicate NoneEmpty(arrays: seq<NamedArray>) {
    forall i :: 0 <= i < |arrays| ==> arrays[i].content.data != []
  }

  /** What was packed is accepted exactly when no array is empty. */
  lemma {:induction false} PackedIsAcceptedIff(env: Envelope, payload: Bytes, entries: seq<Entry>)
    requires Packed(env, payload, entries)
    ensures AllAccepted(env.tensors, |payload|) <==> NoneEmpty(Arrays(entries))
  {
    var arrays := Arrays(entries);
    forall i | 0 <= i < |arrays|
      ensures SlotAccepted(env.tensors[i], |payload|) <==> arrays[i].content.data != []
    {
      DescriptorAt(arrays, i);
      JoinedSlice(arrays, i);
    }
    if AllAccepted(env.tensors, |payload|) {
      forall i | 0 <= i < |arrays| ensures arrays[i].content.data != [] {
        assert SlotAccepted(env.tensors[i], |payload|);
      }
    }
  }

  // ---------- Reading back ----------

  /** A Python slice, which never fails: it stops where the payload ends. */
  function Slice(payload: Bytes, offset: nat, length: nat): (data: Bytes) {
    var lo := if offset < |payload| then offset else |payload|;
    var hi := if offset + length < |payload| then offset + length else |payload|;
    payload[lo..hi]
  }

  /** `np.frombuffer(...).reshape(...)`; None when one of them raises. */
  function ReadTensor(t: Tensor, payload: Bytes): (a: Option<Array>) {
    var dtype, data := ToNumpy(t.dtype), Slice(payload, t.offset, t.length);
    if dtype.None? || |data| % ItemSize(dtype.value.kind) != 0 then None
    else
      var shape := Reshape(t.shape, |data| / ItemSize(dtype.value.kind));
      if shape.None? then None else Some(Array(dtype.value, shape.value, data))
  }

  /** Every tensor as an array under its key, later keys replacing earlier ones; None if one raises. */
  ghost function ReadAll(ts: seq<Tensor>, payload: Bytes): (read: Option<map<string, Value>>) {
    if ts == [] then Some(map[])
    else
      var front, a := ReadAll(ts[..|ts| - 1], payload), ReadTensor(ts[|ts| - 1], payload);
      if front.None? || a.None? then None else Some(front.value[ts[|ts| - 1].key := Arr(a.value)])
  }

  function TextValues(metadata: map<string, string>): (d: map<string, Value>) {
    map k | k in metadata :: Text(metadata[k])
  }

  /** `_reconstruct_numpy`. */
  method Reconstruct(env: Envelope, payload: Bytes) returns (obs: Option<map<string, Value>>)
    ensures obs == Rebuilt(env, payload)
  {
    var result: map<string, Value> := map[];
    for n := 0 to |env.tensors|
      invariant ReadAll(env.tensors[..n], payload) == Some(result)
    {
      var t := env.tensors[n];
      assert env.tensors[..n + 1][..n] == env.tensors[..n];
      var a := ReadTensor(t, payload);
      if a.None? {
        ReadAllPrefix(env.tensors, n + 1, payload);
        return None;
      }
      result := result[t.key := Arr(a.value)];
    }
    assert env.tensors[..|env.tensors|] == env.tensors;
    obs := Some(result + TextValues(env.metadata));
  }

  lemma {:induction false} ReadAllPrefix(ts: seq<Tensor>, n: nat, payload: Bytes)
    requires n <= |ts| && ReadAll(ts[..n], payload).None?
    ensures ReadAll(ts, payload).None?
    decreases |ts|
  {
    if n == |ts| {
      assert ts[..n] == ts;
    } else {
      assert ts[..|ts| - 1][..n] == ts[..n];
      ReadAllPrefix(ts[..|ts| - 1], n, payload);
    }
  }

  /** No later tensor has the same key. */
  ghost predicate LastOfItsKey(ts: seq<Tensor>, i: int) {
    0 <= i < |ts| && forall j :: i < j < |ts| ==> ts[j].key != ts[i].key
  }

  lemma {:induction false} ReadAllHolds(ts: seq<Tensor>, payload: Bytes)
    requires ReadAll(ts, payload).Some?
    ensures forall i :: LastOfItsKey(ts, i) ==>
              && ReadTensor(ts[i], payload).Some? && ts[i].key in ReadAll(ts, payload).value
              && ReadAll(ts, payload).value[ts[i].key] == Arr(ReadTensor(ts[i], payload).value)
  {
    hide ReadTensor;
    if ts != [] {
      var n := |ts| - 1;
      var front := ts[..n];
      ReadAllHolds(front, payload);
      forall i | LastOfItsKey(ts, i)
        ensures ReadTensor(ts[i], payload).Some? && ts[i].key in ReadAll(ts, payload).value
        ensures ReadAll(ts, payload).value[ts[i].key] == Arr(ReadTensor(ts[i], payload).value)
      {
        assert i < n ==> LastOfItsKey(front, i) && front[i] == ts[i] && ts[n].key != ts[i].key;
      }
    }
  }

  lemma {:induction false} ReadAllKeys(ts: seq<Tensor>, payload: Bytes)
    requires ReadAll(ts, payload).Some?
    ensures forall k :: k in ReadAll(ts, payload).value ==> exists i :: 0 <= i < |ts| && ts[i].key == k
  {
    hide ReadTensor;
    if ts != [] {
      var n := |ts| - 1;
      var front := ts[..n];
      ReadAllKeys(front, payload);
      forall k | k in ReadAll(ts, payload).value ensures exists i :: 0 <= i < |ts| && ts[i].key == k {
        if k == ts[n].key {
          assert ts[n].key == k;
        } else {
          var i :| 0 <= i < |front| && front[i].key == k;
          assert ts[i].key == k;
        }
      }
    }
  }

  /** Under each key an observation holds the text of the metadata, if there is one, and otherwise the last tensor with
      that key; it holds nothing else. */
  lemma ObservationHolds(env: Envelope, payload: Bytes)
    requires Rebuilt(env, payload).Some?
    ensures var obs := Rebuilt(env, payload).value;
            && (forall k :: k in env.metadata ==> k in obs && obs[k] == Text(env.metadata[k]))
            && (forall i :: LastOfItsKey(env.tensors, i) && env.tensors[i].key !in env.metadata ==>
                  && ReadTensor(env.tensors[i], payload).Some? && env.tensors[i].key in obs
                  && obs[env.tensors[i].key] == Arr(ReadTensor(env.tensors[i], payload).value))
            && (forall k :: k in obs && k !in env.metadata ==>
                  exists i :: 0 <= i < |env.tensors| && env.tensors[i].key == k)
  {
    ReadAllHolds(env.tensors, payload);
    ReadAllKeys(env.tensors, payload);
    hide ReadAll, ReadTensor, LastOfItsKey;
  }

  /** What a validated slot refers to is whole: slicing does not cut it short. */
  lemma AcceptedSliceIsWhole(t: Tensor, payload: Bytes)
    requires SlotAccepted(t, |payload|)
    ensures |Slice(payload, t.offset, t.length)| == t.length > 0
    ensures Slice(payload, t.offset, t.length) == payload[t.offset..t.offset + t.length]
  {
  }

  // ---------- Round trip ----------

  /** The entries as a dictionary, without those that are not packed. */
  ghost function Dictionary(entries: seq<Entry>): (d: map<string, Value>) {
    if entries == [] then map[]
    else
      var front, last := Dictionary(entries[..|entries| - 1]), entries[|entries| - 1];
      if Unpackable(last) then front else front[last.key := last.value]
  }

  ghost predicate DistinctKeys(entries: seq<Entry>) {
    forall i, j :: 0 <= i < j < |entries| ==> entries[i].key != entries[j].key
  }

  ghost function ArrayValues(arrays: seq<NamedArray>): (d: map<string, Value>) {
    if arrays == [] then map[]
    else ArrayValues(arrays[..|arrays| - 1])[arrays[|arrays| - 1].key := Arr(arrays[|arrays| - 1].content)]
  }

  ghost predicate AllSupported(arrays: seq<NamedArray>) {
    forall i :: 0 <= i < |arrays| ==> arrays[i].content.Supported()
  }

  lemma AllSupportedTyped(arrays: seq<NamedArray>)
    requires AllSupported(arrays)
    ensures Typed(arrays)
  {
    forall i | 0 <= i < |arrays| ensures FromNumpy(arrays[i].content.dtype).Some? {
      assert arrays[i].content.Supported();
    }
  }

  /** Each descriptor reads back the shape and the bytes of the array it was made for, as elements of its
      kind in native order. */
  lemma {:induction false} ReadsBack(arrays: seq<NamedArray>, i: nat)
    requires AllSupported(arrays) && i < |arrays|
    ensures Typed(arrays) && ReadTensor(Described(arrays)[i], Joined(arrays)) == Some(arrays[i].content.Reread())
  {
    AllSupportedTyped(arrays);
    var a := arrays[i].content;
    assert a.Supported();
    DescriptorAt(arrays, i);
    JoinedSlice(arrays, i);
    TypeRoundTrip(a.dtype);
    hide Described, Joined, FromNumpy, ToNumpy;
    WholeElements(a);
    GivenShape(a.shape, |a.data| / ItemSize(a.dtype.kind));
  }

  lemma WholeElements(a: Array)
    requires a.WellFormed() && ItemSize(a.dtype.kind) > 0
    ensures |a.data| % ItemSize(a.dtype.kind) == 0 && |a.data| / ItemSize(a.dtype.kind) == Product(a.shape)
  {
    Quotient(ItemSize(a.dtype.kind), Product(a.shape));
  }

  lemma Quotient(size: nat, n: int)
    requires size > 0
    ensures (size * n) % size == 0 && (size * n) / size == n
  {
    var q, r := (size * n) / size, (size * n) % size;
    assert size * q + r == size * n;
    NoMultipleBetween(size, n - q, r);
  }

  lemma NoMultipleBetween(size: nat, d: int, r: int)
    requires 0 <= r < size && size * d == r
    ensures d == 0 && r == 0
  {
    Multiple(size, d);
  }

  lemma Multiple(size: nat, d: int)
    ensures d >= 1 ==> size * d >= size
    ensures d <= -1 ==> size * d + size <= 0
  {
  }

  lemma GivenShape(shape: seq<nat>, n: nat)
    requires Product(shape) == n
    ensures Reshape(shape, n) == Some(shape)
  {
  }

  ghost predicate AllNative(arrays: seq<NamedArray>) {
    forall i :: 0 <= i < |arrays| ==> arrays[i].content.InNativeOrder()
  }

  lemma {:induction false} ReadsAllBack(arrays: seq<NamedArray>, n: nat)
    requires AllSupported(arrays) && AllNative(arrays) && n <= |arrays|
    ensures Typed(arrays)
    ensures ReadAll(Described(arrays)[..n], Joined(arrays)) == Some(ArrayValues(arrays[..n]))
  {
    AllSupportedTyped(arrays);
    if n > 0 {
      ReadsAllBack(arrays, n - 1);
      ReadsBack(arrays, n - 1);
      assert arrays[n - 1].content.Supported() && arrays[n - 1].content.InNativeOrder();
      RereadIsSameIff(arrays[n - 1].content);
      DescriptorAt(arrays, n - 1);
      assert Described(arrays)[..n][..n - 1] == Described(arrays)[..n - 1];
      assert arrays[..n][..n - 1] == arrays[..n - 1];
    }
  }

  // ---------- The byte order is forgotten ----------

  function AsRead(v: Value): (w: Value) {
    if v.Arr? then Arr(v.content.Reread()) else v
  }

  /** The entries as a reader finds them: with all arrays in native order. */
  function AllAsRead(entries: seq<Entry>): (items: seq<Entry>)
    ensures |items| == |entries|
    ensures forall i :: 0 <= i < |items| ==> items[i] == Entry(entries[i].key, AsRead(entries[i].value))
  {
    seq(|entries|, i requires 0 <= i < |entries| => Entry(entries[i].key, AsRead(entries[i].value)))
  }

  /** On the wire, entries look the same whatever the byte order of their arrays. */
  lemma {:induction false} WireForgetsOrder(entries: seq<Entry>)
    requires Typed(Arrays(entries))
    ensures Typed(Arrays(AllAsRead(entries))) && Texts(AllAsRead(entries)) == Texts(entries)
    ensures Described(Arrays(AllAsRead(entries))) == Described(Arrays(entries))
    ensures Joined(Arrays(AllAsRead(entries))) == Joined(Arrays(entries))
    ensures AllSupported(Arrays(entries)) ==> AllSupported(Arrays(AllAsRead(entries)))
    ensures AllNative(Arrays(AllAsRead(entries)))
  {
    if entries != [] {
      var front, last := entries[..|entries| - 1], entries[|entries| - 1];
      TypedPrefix(entries, |front|);
      WireForgetsOrder(front);
      assert AllAsRead(entries)[..|front|] == AllAsRead(front);
      if last.value.Arr? {
        var a := last.value.content;
        WireForgetsOneOrder(Arrays(front), Arrays(AllAsRead(front)), NamedArray(last.key, a));
      }
    }
  }

  lemma WireForgetsOneOrder(arrays: seq<NamedArray>, read: seq<NamedArray>, last: NamedArray)
    requires Typed(arrays) && Typed(read) && Typed(arrays + [last])
    requires Described(read) == Described(arrays) && Joined(read) == Joined(arrays) && AllNative(read)
    requires AllSupported(arrays) ==> AllSupported(read)
    ensures var p, q := arrays + [last], read + [NamedArray(last.key, last.content.Reread())];
            && Typed(q) && Described(q) == Described(p) && Joined(q) == Joined(p) && AllNative(q)
            && (AllSupported(p) ==> AllSupported(q))
  {
    hide Described, Joined, Product;
    var other := NamedArray(last.key, last.content.Reread());
    DescribeStep(arrays, last);
    DescribeStep(read, other);
    assert Descriptor(other, |Joined(read)|) == Descriptor(last, |Joined(arrays)|);
    var p, q := arrays + [last], read + [other];
    if AllSupported(p) {
      assert p[|arrays|].content.Supported();
      forall i | 0 <= i < |arrays| ensures arrays[i].content.Supported() {
        assert p[i].content.Supported();
      }
    }
  }

  lemma {:induction false} DictionaryKeys(entries: seq<Entry>, k: string)
    requires k in Dictionary(entries)
    ensures exists i :: 0 <= i < |entries| && entries[i].key == k
  {
    var front, last := entries[..|entries| - 1], entries[|entries| - 1];
    if last.key != k {
      DictionaryKeys(front, k);
      var i :| 0 <= i < |front| && front[i].key == k;
      assert entries[i].key == k;
    }
  }

  lemma UpdateLeft(m: map<string, Value>, n: map<string, Value>, k: string, v: Value)
    requires k !in m + n
    ensures m[k := v] + n == (m + n)[k := v]
  {
  }

  lemma UpdateRight(m: map<string, Value>, n: map<string, Value>, k: string, v: Value)
    ensures m + n[k := v] == (m + n)[k := v]
  {
  }

  lemma TextAdded(m: map<string, string>, k: string, text: string)
    ensures TextValues(m[k := text]) == TextValues(m)[k := Text(text)]
  {
  }

  /** Arrays and texts together are the whole dictionary: no key is in both. */
  lemma {:induction false} ArraysAndTexts(entries: seq<Entry>)
    requires DistinctKeys(entries)
    ensures ArrayValues(Arrays(entries)) + TextValues(Texts(entries)) == Dictionary(entries)
  {
    if entries == [] {
      assert TextValues(map[]) == map[];
    } else {
      var front, last := entries[..|entries| - 1], entries[|entries| - 1];
      ArraysAndTexts(front);
      var arrays, texts := Arrays(front), Texts(front);
      hide TextValues, ArrayValues;
      match last.value {
        case Arr(a) =>
          FreshKey(entries);
          ArrayAdded(arrays, NamedArray(last.key, a));
          UpdateLeft(ArrayValues(arrays), TextValues(texts), last.key, last.value);
        case Text(text) =>
          TextAdded(texts, last.key, text);
          UpdateRight(ArrayValues(arrays), TextValues(texts), last.key, last.value);
        case _ =>
      }
    }
  }

  lemma FreshKey(entries: seq<Entry>)
    requires DistinctKeys(entries) && entries != []
    ensures entries[|entries| - 1].key !in Dictionary(entries[..|entries| - 1])
  {
    var front, key := entries[..|entries| - 1], entries[|entries| - 1].key;
    if key in Dictionary(front) {
      DictionaryKeys(front, key);
    }
  }

  lemma ArrayAdded(arrays: seq<NamedArray>, last: NamedArray)
    ensures ArrayValues(arrays + [last]) == ArrayValues(arrays)[last.key := Arr(last.content)]
  {
    assert (arrays + [last])[..|arrays|] == arrays;
  }

  /** Every packable entry is found under its key, and nothing else is. */
  lemma {:induction false} DictionaryHolds(entries: seq<Entry>, i: nat)
    requires DistinctKeys(entries) && i < |entries| && !Unpackable(entries[i])
    ensures entries[i].key in Dictionary(entries) && Dictionary(entries)[entries[i].key] == entries[i].value
  {
    if i < |entries| - 1 {
      DictionaryHolds(entries[..|entries| - 1], i);
    }
  }

  /** What the reader gets for an observation. */
  ghost function Rebuilt(env: Envelope, payload: Bytes): (obs: Option<map<string, Value>>) {
    var read := ReadAll(env.tensors, payload);
    if read.None? then None else Some(read.value + TextValues(env.metadata))
  }

  /** Observation round trip: whatever the client packs is reconstructed, with every key, shape and byte, as
      elements in native order; and the server accepts it exactly when no array is empty. */
  lemma ObservationRoundTrip(env: Envelope, payload: Bytes, entries: seq<Entry>)
    requires Packed(env, payload, entries) && DistinctKeys(entries) && AllSupported(Arrays(entries))
    ensures AllAccepted(env.tensors, |payload|) <==> NoneEmpty(Arrays(entries))
    ensures Rebuilt(env, payload) == Some(Dictionary(AllAsRead(entries)))
  {
    PackedIsAcceptedIff(env, payload, entries);
    WireForgetsOrder(entries);
    var items := AllAsRead(entries);
    var arrays := Arrays(items);
    ReadsAllBack(arrays, |arrays|);
    assert env.tensors[..|env.tensors|] == env.tensors && arrays[..|arrays|] == arrays;
    ArraysAndTexts(items);
  }

  /** The arguments that the caller gave, whatever becomes of them. */
  ghost function Arguments(entries: seq<Entry>): (all: map<string, Value>) {
    if entries == [] then map[]
    else
      var front, last := Arguments(entries[..|entries| - 1]), entries[|entries| - 1];
      front[last.key := last.value]
  }

  lemma {:induction false} ArgumentsHold(entries: seq<Entry>, i: nat)
    requires DistinctKeys(entries) && i < |entries|
    ensures entries[i].key in Arguments(entries) && Arguments(entries)[entries[i].key] == entries[i].value
  {
    if i < |entries| - 1 {
      ArgumentsHold(entries[..|entries| - 1], i);
    }
  }

  /** What is neither an array nor a string is not packed, and nobody is told. */
  lemma {:induction false} NothingUnderKey(entries: seq<Entry>, i: nat)
    requires DistinctKeys(entries) && i < |entries| && Unpackable(entries[i])
    ensures entries[i].key !in Dictionary(entries)
  {
    var front := entries[..|entries| - 1];
    if i < |front| {
      NothingUnderKey(front, i);
    } else if entries[i].key in Dictionary(front) {
      DictionaryKeys(front, entries[i].key);
    }
  }

  lemma {:induction false} AllPackable(entries: seq<Entry>)
    requires forall e :: e in entries ==> !Unpackable(e)
    ensures Dictionary(entries) == Arguments(entries)
  {
    if entries != [] {
      var front := entries[..|entries| - 1];
      assert entries == front + [entries[|entries| - 1]];
      AllPackable(front);
    }
  }

  /** An argument that comes back as it was given: a string, or an array whose elements have one byte or
      are in native order. */
  predicate Survives(v: Value) {
    match v
    case Arr(a) => a.InNativeOrder()
    case Text(_) => true
    case Other(_) => false
  }

  /** The round trip gives back the arguments as they were given if and only if each of them survives. */
  lemma RoundTripIsExactIff(env: Envelope, payload: Bytes, entries: seq<Entry>)
    requires Packed(env, payload, entries) && DistinctKeys(entries) && AllSupported(Arrays(entries))
    ensures Rebuilt(env, payload) == Some(Arguments(entries)) <==> forall e :: e in entries ==> Survives(e.value)
  {
    hide Packed, AllSupported, Dictionary, Arguments, Product;
    ObservationRoundTrip(env, payload, entries);
    ReadAsGivenIff(entries);
  }

  lemma ReadAsGivenIff(entries: seq<Entry>)
    requires DistinctKeys(entries) && AllSupported(Arrays(entries))
    ensures Dictionary(AllAsRead(entries)) == Arguments(entries) <==> forall e :: e in entries ==> Survives(e.value)
  {
    var items := AllAsRead(entries);
    forall i | 0 <= i < |entries| && entries[i].value.Arr?
      ensures AsRead(entries[i].value) == entries[i].value <==> Survives(entries[i].value)
    {
      ArrayOf(entries, i);
      RereadIsSameIff(entries[i].value.content);
    }
    if Dictionary(items) == Arguments(entries) {
      forall i | 0 <= i < |entries| ensures Survives(entries[i].value) {
        GivenBack(entries, i);
      }
    }
    if forall e :: e in entries ==> Survives(e.value) {
      assert forall i :: 0 <= i < |entries| ==> entries[i] in entries;
      assert items == entries;
      AllPackable(entries);
    }
  }

  lemma GivenBack(entries: seq<Entry>, i: nat)
    requires DistinctKeys(entries) && i < |entries| && Dictionary(AllAsRead(entries)) == Arguments(entries)
    ensures AsRead(entries[i].value) == entries[i].value && !Unpackable(entries[i])
  {
    var items := AllAsRead(entries);
    ArgumentsHold(entries, i);
    if Unpackable(items[i]) {
      NothingUnderKey(items, i);
    } else {
      DictionaryHolds(items, i);
    }
  }

  /** A number among the arguments is packed without complaint, accepted, and gone. */
  lemma NumberIsDropped(asArray: Option<Array>)
    ensures var given := [Entry("x", Other(asArray))];
            && Packed(Envelope([], map[]), [], given) && AllAccepted([], 0)
            && Rebuilt(Envelope([], map[]), []) == Some(map[]) != Some(Arguments(given))
  {
    var given := [Entry("x", Other(asArray))];
    assert given[..|given| - 1] == [] && Arrays([]) == [] && Texts([]) == map[];
    assert Arrays(given) == [] && Texts(given) == map[];
    assert TextValues(map[]) == map[];
    ArgumentsHold(given, 0);
  }

  lemma {:induction false} ArrayOf(entries: seq<Entry>, i: nat)
    requires AllSupported(Arrays(entries)) && i < |entries| && entries[i].value.Arr?
    ensures entries[i].value.content.WellFormed()
  {
    var front, last := entries[..|entries| - 1], entries[|entries| - 1];
    var arrays := Arrays(entries);
    if i == |entries| - 1 {
      assert arrays[|arrays| - 1].content.Supported();
    } else {
      forall j | 0 <= j < |Arrays(front)| ensures Arrays(front)[j].content.Supported() {
        assert Arrays(front)[j] == arrays[j];
      }
      ArrayOf(front, i);
    }
  }

  /** A big-endian array of one 32-bit integer, the number 1. */
  function BigEndianOne(): (a: Array) {
    Array(NpType(NpInt32, Swapped), [1], [0, 0, 0, 1])
  }

  /** It is packed and accepted, and comes back as the number 16777216. */
  lemma SwappedIsMisread()
    ensures var a := BigEndianOne();
            && a.Supported() && TravelsAs("x", a, a.Reread()) && a.Reread() != a
            && Number(a.dtype.order, a.data) == 1 && Number(a.Reread().dtype.order, a.Reread().data) == 16777216
  {
    var a := BigEndianOne();
    assert a.Supported() by {
      assert [1][..0] == [] && Product([1]) == 1;
    }
    OneInBytes();
    hide Number, Product, TravelsAs;
    PackedAlone("x", a);
  }

  /** Packed on its own, the array `a` is accepted and read back as `b`. */
  ghost predicate TravelsAs(key: string, a: Array, b: Array)
    requires FromNumpy(a.dtype).Some?
  {
    var t := Descriptor(NamedArray(key, a), 0);
    && Packed(Envelope([t], map[]), a.data, [Entry(key, Arr(a))]) && AllAccepted([t], |a.data|)
    && ReadTensor(t, a.data) == Some(b)
  }

  lemma PackedAlone(key: string, a: Array)
    requires a.Supported() && a.data != []
    ensures TravelsAs(key, a, a.Reread())
  {
    var named := NamedArray(key, a);
    PackedOne([Entry(key, Arr(a))], named);
    assert [named][..0] == [] && Joined([]) == [];
    assert [named][0].content.Supported();
    ReadsBack([named], 0);
  }

  lemma PackedOne(given: seq<Entry>, a: NamedArray)
    requires given == [Entry(a.key, Arr(a.content))] && FromNumpy(a.content.dtype).Some?
    ensures Packed(Envelope([Descriptor(a, 0)], map[]), a.content.data, given)
  {
    assert given[..|given| - 1] == [] && Arrays([]) == [] && Texts([]) == map[];
    assert Arrays(given) == [] + [a] && Texts(given) == map[];
    DescribeStep([], a);
    assert Joined([]) == [] && [] + a.content.data == a.content.data && Described([]) == [];
    assert [] + [Descriptor(a, 0)] == [Descriptor(a, 0)];
  }

  lemma OneInBytes()
    ensures Number(Swapped, [0, 0, 0, 1]) == 1 && Number(Native, [0, 0, 0, 1]) == 16777216
  {
    var bs: Bytes := [0, 0, 0, 1];
    assert Reversed(bs) == [1, 0, 0, 0];
    var p: Bytes, q: Bytes := [1, 0, 0, 0], bs;
    assert p[1..] == [0, 0, 0] && p[1..][1..] == [0, 0] && p[1..][1..][1..] == [0];
    var z1: Bytes, z2: Bytes := [0], [0, 0];
    assert z1[1..] == [] && z2[1..] == z1;
    assert LittleEndian(z1) == 0 && LittleEndian(z2) == 0;
    assert LittleEndian(p[1..]) == 0;
    assert q[1..] == [0, 0, 1] && q[1..][1..] == [0, 1] && q[1..][1..][1..] == [1];
    assert LittleEndian(q[1..][1..][1..]) == 1;
    assert LittleEndian(q[1..][1..]) == 256;
    assert LittleEndian(q[1..]) == 65536;
  }

  /** Validation does not look at the shapes: an accepted observation with known element types is
      reconstructed exactly when every length is a whole number of elements that the shape fits, and
      raises otherwise. */
  lemma {:induction false} AcceptedReadsIff(ts: seq<Tensor>, payload: Bytes)
    requires Admitted(ts, |payload|)
    ensures ReadAll(ts, payload).Some? <==> AllAgree(ts)
  {
    if ts != [] {
      var front, last := ts[..|ts| - 1], ts[|ts| - 1];
      AgreeSnoc(ts);
      assert Admitted(front, |payload|) && SlotAccepted(last, |payload|) && ToNumpy(last.dtype).Some?;
      hide AllAgree, ReadTensor, SizeAgrees, ToNumpy, Admitted;
      TensorReadsIff(last, payload);
      AcceptedReadsIff(front, payload);
    }
  }

  /** Every descriptor has a known element type, and its length and its shape agree. */
  ghost predicate AllAgree(ts: seq<Tensor>) {
    forall i :: 0 <= i < |ts| ==> ToNumpy(ts[i].dtype).Some? && SizeAgrees(ts[i])
  }

  lemma AgreeSnoc(ts: seq<Tensor>)
    requires ts != [] && ToNumpy(ts[|ts| - 1].dtype).Some?
    ensures AllAgree(ts) <==> AllAgree(ts[..|ts| - 1]) && SizeAgrees(ts[|ts| - 1])
  {
    hide SizeAgrees, ToNumpy;
    var front := ts[..|ts| - 1];
    if AllAgree(ts) {
      assert forall i :: 0 <= i < |front| ==> front[i] == ts[i];
    }
    if AllAgree(front) && SizeAgrees(ts[|ts| - 1]) {
      forall i | 0 <= i < |ts| ensures ToNumpy(ts[i].dtype).Some? && SizeAgrees(ts[i]) {
        assert i < |front| ==> front[i] == ts[i];
      }
    }
  }

  lemma TensorReadsIff(t: Tensor, payload: Bytes)
    requires SlotAccepted(t, |payload|) && ToNumpy(t.dtype).Some?
    ensures ReadTensor(t, payload).Some? <==> SizeAgrees(t)
  {
    AcceptedSliceIsWhole(t, payload);
    var size := ItemSize(ToNumpy(t.dtype).value.kind);
    ReshapeWorksIff(t.shape, t.length / size);
    hide ToNumpy, ItemSize, Reshape, Fits;
  }

  /** What `decode` lets through: accepted slots of known element types (observation/assembler.py:50-65). */
  ghost predicate Admitted(ts: seq<Tensor>, size: nat) {
    AllAccepted(ts, size) && forall i :: 0 <= i < |ts| ==> ToNumpy(ts[i].dtype).Some?
  }

  ghost predicate SizeAgrees(t: Tensor)
    requires ToNumpy(t.dtype).Some?
  {
    var size := ItemSize(ToNumpy(t.dtype).value.kind);
    t.length % size == 0 && Fits(t.shape, t.length / size)
  }
}
