/** Numpy arrays as far as packing sees them: element types with their byte order, shapes, bytes; and what
    `reshape` does with a shape from the wire (proto/__init__.py:66-100, dispatch/base.py:61-66). */
module NumpyArrays {
  import opened Requests

  newtype byte = x: int | 0 <= x < 256

  type Bytes = seq<byte>

  // ---------- Element types ----------

  /** Element types of the wire. */
  datatype DType = Unspecified | Float16 | Float32 | Float64 | BFloat16 | UInt8 | Int32 | Int64 | Bool

  datatype Kind = NpFloat16 | NpFloat32 | NpFloat64 | NpUInt16 | NpUInt8 | NpInt32 | NpInt64 | NpBool
                | NpOther(name: string, size: nat)

  /** Whether the elements are stored in the byte order of the machine. */
  datatype ByteOrder = Native | Swapped

  datatype NpType = NpType(kind: Kind, order: ByteOrder)

  function ItemSize(kind: Kind): (size: nat) {
    match kind
    case NpFloat16 => 2 case NpFloat32 => 4 case NpFloat64 => 8 case NpUInt16 => 2
    case NpUInt8 => 1 case NpInt32 => 4 case NpInt64 => 8 case NpBool => 1
    case NpOther(_, size) => size
  }

  /** `dtype_from_numpy` looks at the name of the type, which does not tell the byte order; types
      without a name on the wire raise. */
  function FromNumpy(t: NpType): (dtype: Option<DType>) {
    match t.kind
    case NpFloat16 => Some(Float16) case NpFloat32 => Some(Float32) case NpFloat64 => Some(Float64)
    case NpUInt8 => Some(UInt8) case NpInt32 => Some(Int32) case NpInt64 => Some(Int64) case NpBool => Some(Bool)
    case NpUInt16 => None case NpOther(_, _) => None
  }

  /** `dtype_to_numpy` gives types in native order; bfloat16 is read back as raw 16-bit words. */
  function ToNumpy(dtype: DType): (t: Option<NpType>)
    ensures t.Some? ==> t.value.order == Native && ItemSize(t.value.kind) > 0
  {
    match dtype
    case Float16 => Some(NpType(NpFloat16, Native)) case Float32 => Some(NpType(NpFloat32, Native))
    case Float64 => Some(NpType(NpFloat64, Native)) case BFloat16 => Some(NpType(NpUInt16, Native))
    case UInt8 => Some(NpType(NpUInt8, Native)) case Int32 => Some(NpType(NpInt32, Native))
    case Int64 => Some(NpType(NpInt64, Native)) case Bool => Some(NpType(NpBool, Native))
    case Unspecified => None
  }

  /** The wire keeps the kind of an element and forgets its byte order. */
  lemma TypeRoundTrip(t: NpType)
    requires FromNumpy(t).Some?
    ensures FromNumpy(t).value != Unspecified && ToNumpy(FromNumpy(t).value) == Some(NpType(t.kind, Native))
  {
  }

  /** Each type of the wire is read as the numpy type of its own name; bfloat16, which numpy does not have, as words
      of two bytes. No numpy type is sent as bfloat16, and 16-bit words cannot be sent at all. */
  lemma WireTypes()
    ensures forall d, k, name :: NamedAlike(d, k, name) ==>
              && ToNumpy(d) == Some(NpType(k, Native)) && FromNumpy(NpType(k, Native)) == Some(d)
              && ItemSize(k) * 8 == BitsIn(name)
    ensures ToNumpy(BFloat16).Some? && ItemSize(ToNumpy(BFloat16).value.kind) == 2
    ensures forall t :: FromNumpy(t) != Some(BFloat16) && FromNumpy(NpType(NpUInt16, t.order)).None?
  {
  }

  /** The name that both the wire and numpy give to a type. */
  ghost predicate NamedAlike(d: DType, k: Kind, name: string) {
    || (d == Float16 && k == NpFloat16 && name == "float16") || (d == Float32 && k == NpFloat32 && name == "float32")
    || (d == Float64 && k == NpFloat64 && name == "float64") || (d == UInt8 && k == NpUInt8 && name == "uint8")
    || (d == Int32 && k == NpInt32 && name == "int32") || (d == Int64 && k == NpInt64 && name == "int64")
    || (d == Bool && k == NpBool && name == "bool")
  }

  /** The width that the name of a type announces; a boolean takes a byte. */
  ghost function BitsIn(name: string): (bits: nat) {
    if name == "float16" then 16 else if name == "float32" || name == "int32" then 32
    else if name == "float64" || name == "int64" then 64 else 8
  }

  // ---------- Arrays ----------

  function Product(shape: seq<int>): (n: int) {
    if shape == [] then 1 else Product(shape[..|shape| - 1]) * shape[|shape| - 1]
  }

  /** An array is its element type, its shape and its bytes in C order. Numpy keeps no byte order for
      elements of one byte. */
  datatype Array = Array(dtype: NpType, shape: seq<nat>, data: Bytes) {
    predicate WellFormed() {
      |data| == ItemSize(dtype.kind) * Product(shape) && (ItemSize(dtype.kind) <= 1 ==> dtype.order == Native)
    }
    predicate Supported() {
      WellFormed() && FromNumpy(dtype).Some?
    }
    predicate InNativeOrder() {
      ItemSize(dtype.kind) > 1 ==> dtype.order == Native
    }
    /** The same bytes taken for elements in native order. */
    function Reread(): (a: Array) {
      Array(NpType(dtype.kind, Native), shape, data)
    }
  }

  lemma RereadIsSameIff(a: Array)
    requires a.WellFormed()
    ensures a.Reread() == a <==> a.InNativeOrder()
  {
  }

  // ---------- What the byte order means ----------

  function Reversed(bs: Bytes): (r: Bytes)
    ensures |r| == |bs| && forall i :: 0 <= i < |bs| ==> r[i] == bs[|bs| - 1 - i]
  {
    if bs == [] then [] else [bs[|bs| - 1]] + Reversed(bs[..|bs| - 1])
  }

  function LittleEndian(bs: Bytes): (n: nat) {
    if bs == [] then 0 else bs[0] as nat + 256 * LittleEndian(bs[1..])
  }

  /** The unsigned number that an element's bytes stand for on a little-endian machine. */
  function Number(order: ByteOrder, bs: Bytes): (n: nat) {
    LittleEndian(if order == Native then bs else Reversed(bs))
  }

  lemma {:induction false} LittleEndianInjective(p: Bytes, q: Bytes)
    requires |p| == |q| && LittleEndian(p) == LittleEndian(q)
    ensures p == q
  {
    if p != [] {
      var m, n := LittleEndian(p[1..]), LittleEndian(q[1..]);
      assert p[0] as nat + 256 * m == q[0] as nat + 256 * n;
      assert m == n;
      LittleEndianInjective(p[1..], q[1..]);
      assert p == [p[0]] + p[1..] && q == [q[0]] + q[1..];
    }
  }

  /** Read in the other order, an element is the same number exactly when its bytes are a palindrome. */
  lemma SameNumberIff(bs: Bytes)
    ensures Number(Swapped, bs) == Number(Native, bs) <==> Reversed(bs) == bs
  {
    if Number(Swapped, bs) == Number(Native, bs) {
      LittleEndianInjective(Reversed(bs), bs);
    }
  }

  // ---------- Reshaping ----------

  function FirstNegative(shape: seq<int>): (i: nat)
    ensures i <= |shape| && (forall j :: 0 <= j < i ==> shape[j] >= 0) && (i < |shape| ==> shape[i] < 0)
  {
    if shape == [] || shape[0] < 0 then 0 else 1 + FirstNegative(shape[1..])
  }

  function Skip(shape: seq<int>, i: nat): (others: seq<int>)
    requires i < |shape|
    ensures |others| == |shape| - 1
  {
    shape[..i] + shape[i + 1..]
  }

  /** `reshape` of `n` elements: the dimensions must multiply to `n`; one of them may be -1 and is then
      inferred, if the others have a product that divides `n`. None when it raises. */
  function Reshape(shape: seq<int>, n: nat): (r: Option<seq<nat>>) {
    var i := FirstNegative(shape);
    if i == |shape| then
      if Product(shape) == n then Some(shape) else None
    else
      var others := Skip(shape, i);
      var known := Product(others);
      if shape[i] != -1 || FirstNegative(others) < |others| || known == 0 || n % known != 0 then None
      else Some(WithInferred(others, i, n))
  }

  /** The given dimensions, with the quotient in place of the missing one. */
  function WithInferred(others: seq<int>, i: nat, n: nat): (shape: seq<nat>)
    requires i <= |others| && Product(others) != 0 && forall j :: 0 <= j < |others| ==> others[j] >= 0
  {
    ProductNonNegative(others);
    QuotientNonNegative(n, Product(others));
    others[..i] + [n / Product(others)] + others[i..]
  }

  lemma QuotientNonNegative(n: nat, known: int)
    requires known > 0
    ensures n / known >= 0
  {
  }

  lemma {:induction false} ProductNonNegative(shape: seq<int>)
    requires forall j :: 0 <= j < |shape| ==> shape[j] >= 0
    ensures Product(shape) >= 0
  {
    if shape != [] {
      ProductNonNegative(shape[..|shape| - 1]);
      TimesNonNegative(Product(shape[..|shape| - 1]), shape[|shape| - 1]);
    }
  }

  lemma TimesNonNegative(a: int, b: int)
    requires a >= 0 && b >= 0
    ensures a * b >= 0
  {
  }

  lemma {:induction false} ProductInsert(p: seq<int>, x: int, q: seq<int>)
    ensures Product(p + [x] + q) == Product(p + q) * x
  {
    if q == [] {
      assert p + [x] + q == p + [x] && p + q == p && (p + [x])[..|p|] == p;
    } else {
      var front, last := q[..|q| - 1], q[|q| - 1];
      ProductInsert(p, x, front);
      assert (p + [x] + q)[..|p| + |q|] == p + [x] + front;
      assert (p + q)[..|p + q| - 1] == p + front;
      Swap(Product(p + front), x, last);
    }
  }

  lemma Swap(a: int, x: int, y: int)
    ensures (a * x) * y == (a * y) * x
  {
  }

  /** -1 stands at `i`, and the other dimensions are positive with a product that divides `n`. */
  ghost predicate Infers(shape: seq<int>, n: nat, i: int) {
    && 0 <= i < |shape| && shape[i] == -1
    && (forall j :: 0 <= j < |shape| && j != i ==> shape[j] >= 0)
    && Product(Skip(shape, i)) > 0 && n % Product(Skip(shape, i)) == 0
  }

  /** A shape fits `n` elements. */
  ghost predicate Fits(shape: seq<int>, n: nat) {
    || ((forall j :: 0 <= j < |shape| ==> shape[j] >= 0) && Product(shape) == n)
    || exists i :: Infers(shape, n, i)
  }

  /** Reshaping works exactly for the shapes that fit; it keeps every dimension that is given, and the
      dimensions of the result multiply to the number of elements. */
  lemma ReshapeWorksIff(shape: seq<int>, n: nat)
    ensures Reshape(shape, n).Some? <==> Fits(shape, n)
    ensures Reshape(shape, n).Some? ==>
              var r := Reshape(shape, n).value;
              && |r| == |shape| && Product(r) == n
              && forall j :: 0 <= j < |shape| && shape[j] >= 0 ==> r[j] == shape[j]
  {
    var i := FirstNegative(shape);
    if i < |shape| {
      InferredIff(shape, n, i);
    }
  }

  lemma InferredIff(shape: seq<int>, n: nat, i: nat)
    requires i == FirstNegative(shape) < |shape|
    ensures Reshape(shape, n).Some? <==> Fits(shape, n)
    ensures Reshape(shape, n).Some? ==>
              var r := Reshape(shape, n).value;
              && |r| == |shape| && Product(r) == n
              && forall j :: 0 <= j < |shape| && shape[j] >= 0 ==> r[j] == shape[j]
  {
    OthersGiven(shape, i);
    assert forall k :: Infers(shape, n, k) ==> k == i;
    var others := Skip(shape, i);
    hide Skip, Product, FirstNegative;
    if FirstNegative(others) == |others| && shape[i] == -1 {
      ProductNonNegative(others);
      var known := Product(others);
      if known > 0 && n % known == 0 {
        assert Infers(shape, n, i);
        Inferred(shape, n, i);
      }
    }
  }

  lemma OthersGiven(shape: seq<int>, i: nat)
    requires i < |shape|
    ensures FirstNegative(Skip(shape, i)) == |shape| - 1 <==> forall j :: 0 <= j < |shape| && j != i ==> shape[j] >= 0
    ensures forall j :: 0 <= j < |shape| - 1 ==> Skip(shape, i)[j] == shape[if j < i then j else j + 1]
  {
    var others := Skip(shape, i);
    if FirstNegative(others) == |others| {
      forall j | 0 <= j < |shape| && j != i ensures shape[j] >= 0 {
        assert shape[j] == others[if j < i then j else j - 1];
      }
    }
  }

  /** The inferred shape. */
  lemma Inferred(shape: seq<int>, n: nat, i: nat)
    requires Infers(shape, n, i) && FirstNegative(shape) == i
    requires FirstNegative(Skip(shape, i)) == |shape| - 1
    ensures Reshape(shape, n).Some?
    ensures var r := Reshape(shape, n).value;
            && |r| == |shape| && Product(r) == n
            && forall j :: 0 <= j < |shape| && shape[j] >= 0 ==> r[j] == shape[j]
  {
    var others := Skip(shape, i);
    var known := Product(others);
    ProductInsert(others[..i], n / known, others[i..]);
    assert others[..i] + others[i..] == others;
    DividesExactly(n, known);
  }

  lemma DividesExactly(n: nat, known: int)
    requires known > 0 && n % known == 0
    ensures known * (n / known) == n
  {
  }
}
