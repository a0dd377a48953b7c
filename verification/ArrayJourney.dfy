/** An array on its whole way: out of the backend's storage, over the wire, into Python as nested
    lists, and back over the wire. */
module ArrayJourney {
  import opened Basics
  import opened ByteStream
  import opened Codec
  import opened NestedArrays
  import NullBitmap

  /** Elements as they travel. */
  function ToValues(items: seq<Option<Value>>): (vs: seq<Value>)
    ensures |vs| == |items|
    ensures forall k | 0 <= k < |vs| :: vs[k] == if items[k].None? then Null else items[k].value
  {
    seq(|items|, k requires 0 <= k < |items| => if items[k].None? then Null else items[k].value)
  }

  function FromValues(vs: seq<Value>): (items: seq<Option<Value>>)
    ensures |items| == |vs|
    ensures forall k | 0 <= k < |vs| :: items[k] == if vs[k].Null? then None else Some(vs[k])
  {
    seq(|vs|, k requires 0 <= k < |vs| => if vs[k].Null? then None else Some(vs[k]))
  }

  /** An array of this type, and of a size that fits an int while it is computed. */
  predicate Fits(t: Type, dims: seq<nat>, items: seq<Option<Value>>) {
    && t.kind.Array? && t.subs != [] && ItemKind(t.subs[0].kind)
    && Proper(dims) && WellFormedDims(dims) && ArraySize(dims).Some? && |items| == Product(dims)
    && forall k | 0 <= k < |items| && items[k].Some? ::
         !items[k].value.Null? && WellFormedValue(t.subs[0], items[k].value)
  }

  /** The int product of the dimensions is their product. */
  lemma {:induction false} SizeIsProduct(size: nat, dims: seq<nat>)
    requires SizeFrom(size, dims).Some?
    ensures SizeFrom(size, dims).value == size * Product(dims)
    decreases |dims|
  {
    if dims != [] {
      SizeIsProduct(size * dims[0], dims[1..]);
      assert size * dims[0] * Product(dims[1..]) == size * (dims[0] * Product(dims[1..]));
    }
  }

  lemma FitsTravels(t: Type, dims: seq<nat>, items: seq<Option<Value>>)
    requires Fits(t, dims, items)
    ensures WellFormedValue(t, Arr(dims, ToValues(items))) && FromValues(ToValues(items)) == items
  {
    SizeIsProduct(1, dims);
  }

  /** Encoding and decoding an array, at either end. */
  method Travel(t: Type, dims: seq<nat>, items: seq<Option<Value>>)
    returns (dims': seq<nat>, items': seq<Option<Value>>)
    requires Fits(t, dims, items)
    ensures dims' == dims && items' == items
  {
    FitsTravels(t, dims, items);
    var v := Arr(dims, ToValues(items));
    var bytes := EncodeValue(t, v);
    ValueRoundTrip(t, v, []);
    assert bytes + [] == bytes;
    var arrived := TakeValue(t, bytes).value;
    assert arrived == v;
    dims', items' := arrived.dims, FromValues(arrived.items);
  }

  /** What Python gets, and what the database gets back from a function that returns it unchanged, is
      the array that was stored, up to ten dimensions: same dimensions, same elements in the same
      places, same nulls. */
  method ThroughPython(t: Type, bitmap: Option<seq<bv8>>, data: seq<Value>, dims: seq<nat>,
                       ghost items: seq<Option<Value>>)
    returns (obj: Py<Value>, back: Reading<Value>)
    requires Fits(t, dims, items) && NullBitmap.Holds(bitmap, data, items)
    ensures obj == Nest(dims, items)
    ensures back == if |dims| > MAX_ARRAY_DIMS then Overrun else Reading.Array(dims, items, false)
  {
    var stored := NullBitmap.Drain(bitmap, data, Product(dims), items);
    var ds, arrived := Travel(t, dims, stored);
    obj := FromArray(ds, arrived);
    NestReadsAs(dims, items);
    back := AsArray(obj, items);
    if back.Array? {
      ds, arrived := Travel(t, back.dims, back.items);
      back := Reading.Array(ds, arrived, back.missing);
    }
  }
}
