/** Elements of a backend array in storage order (src/plc_typeio.c): nulls are marked in a bitmap and
    only the other elements are stored. The cursor keeps a byte pointer, a one-bit mask and the place
    of the next stored element. */
module NullBitmap {
  import opened Basics
  import opened NestedArrays

  /** The stored elements: those that are not null, in order. */
  function Stored<V>(items: seq<Option<V>>): (r: seq<V>)
    ensures |r| <= |items|
  {
    if items == [] then []
    else Stored(items[..|items| - 1]) + (if items[|items| - 1].Some? then [items[|items| - 1].value] else [])
  }

  /** Bit k of a bitmap, eight bits to a byte from the lowest. */
  predicate Bit(bytes: seq<bv8>, k: nat)
    requires k < 8 * |bytes|
  {
    (bytes[k / 8] >> (k % 8)) & 1 == 1
  }

  /** The mask that selects bit j of a byte. */
  function Mask(j: nat): bv16 {
    1 << (if j < 8 then j else 8)
  }

  lemma MaskSelects(b: bv8, j: nat)
    requires j < 8
    ensures (b as bv16) & Mask(j) == 0 <==> (b >> j) & 1 == 0
  {
    if j == 0 {
    } else if j == 1 {
    } else if j == 2 {
    } else if j == 3 {
    } else if j == 4 {
    } else if j == 5 {
    } else if j == 6 {
    } else {
      assert j == 7;
    }
  }

  lemma MaskShift(j: nat)
    requires j < 8
    ensures Mask(j) << 1 == Mask(j + 1)
    ensures Mask(j + 1) == 0x100 <==> j == 7
  {
    if j == 0 {
    } else if j == 1 {
    } else if j == 2 {
    } else if j == 3 {
    } else if j == 4 {
    } else if j == 5 {
    } else if j == 6 {
    } else {
      assert j == 7;
    }
  }

  /** A stored array holds these elements: bit k is set exactly when element k is not null; without a
      bitmap no element is null. */
  ghost predicate Holds<V>(bitmap: Option<seq<bv8>>, data: seq<V>, items: seq<Option<V>>) {
    && data == Stored(items)
    && (bitmap.None? ==> forall k | 0 <= k < |items| :: items[k].Some?)
    && (bitmap.Some? ==> Marks(bitmap.value, items))
  }

  predicate Marks<V>(bytes: seq<bv8>, items: seq<Option<V>>) {
    |items| <= 8 * |bytes| && forall k | 0 <= k < |items| :: Bit(bytes, k) <==> items[k].Some?
  }

  lemma {:induction false} StoredPrefix<V>(items: seq<Option<V>>, k: nat)
    requires k < |items|
    ensures |Stored(items[..k + 1])| == |Stored(items[..k])| + (if items[k].Some? then 1 else 0) <= |Stored(items)|
    ensures Stored(items)[..|Stored(items[..k])|] == Stored(items[..k])
    ensures items[k].Some? ==> Stored(items)[|Stored(items[..k])|] == items[k].value
    decreases |items|
  {
    var n := |items| - 1;
    if k < n {
      StoredPrefix(items[..n], k);
      assert items[..n][..k] == items[..k] && items[..n][..k + 1] == items[..k + 1];
    } else {
      assert items[..k + 1] == items;
    }
  }

  class Cursor<V> {
    const bitmap: Option<seq<bv8>>
    const data: seq<V>
    ghost const items: seq<Option<V>>
    ghost var k: nat
    var at: nat       // byte of the bitmap
    var mask: bv16
    var next: nat     // next stored element

    /** k elements were handed out. */
    ghost predicate Valid()
      reads this
    {
      && k <= |items| && Holds(bitmap, data, items)
      && next == |Stored(items[..k])|
      && (bitmap.Some? ==> at == k / 8 && mask == Mask(k % 8))
    }

    /** plc_datum_as_array */
    constructor (bitmap: Option<seq<bv8>>, data: seq<V>, ghost items: seq<Option<V>>)
      requires Holds(bitmap, data, items)
      ensures Valid() && k == 0 && this.items == items
    {
      this.bitmap, this.data, this.items := bitmap, data, items;
      k, at, mask, next := 0, 0, 1, 0;
    }

    /** The bit under the mask is clear. */
    predicate IsNull()
      requires Valid() && k < |items|
      reads this
      ensures IsNull() <==> items[k].None?
    {
      bitmap.Some? &&
      (assert Bit(bitmap.value, k) <==> items[k].Some?;
       MaskSelects(bitmap.value[at], k % 8);
       (bitmap.value[at] as bv16) & mask == 0)
    }

    /** plc_backend_array_next: the k-th call gives element k. */
    method Next() returns (r: Option<V>)
      requires Valid() && k < |items|
      modifies this
      ensures Valid() && k == old(k) + 1 && r == items[old(k)]
    {
      hide Stored, Mask, Marks;
      StoredPrefix(items, k);
      if IsNull() {
        r := None;
      } else {
        r := Some(data[next]);
        next := next + 1;
      }
      Move();
      k := k + 1;
    }

    /** The mask moves to the next bit, from the eighth to the first bit of the next byte. */
    method Move()
      requires bitmap.Some? ==> at == k / 8 && mask == Mask(k % 8)
      modifies this`at, this`mask
      ensures bitmap.Some? ==> at == (k + 1) / 8 && mask == Mask((k + 1) % 8)
    {
      if bitmap.Some? {
        MaskShift(k % 8);
        mask := mask << 1;
        if mask == 0x100 {
          at := at + 1;
          mask := 1;
        }
      }
    }
  }

  /** The sender takes one element after another: it gets the elements of the array. */
  method Drain<V>(bitmap: Option<seq<bv8>>, data: seq<V>, size: nat, ghost items: seq<Option<V>>)
    returns (r: seq<Option<V>>)
    requires Holds(bitmap, data, items) && size == |items|
    ensures r == items
  {
    var c := new Cursor(bitmap, data, items);
    r := [];
    for i := 0 to size
      invariant c.Valid() && c.k == i && c.items == items && r == items[..i]
    {
      var x := c.Next();
      r := r + [x];
    }
  }

  /** Which elements are null and what the others are is all a stored array says. */
  lemma {:induction false} HoldsOne<V>(bitmap: Option<seq<bv8>>, data: seq<V>, a: seq<Option<V>>, b: seq<Option<V>>)
    requires Holds(bitmap, data, a) && Holds(bitmap, data, b) && |a| == |b|
    ensures a == b
  {
    SameNulls(a, b);
  }

  lemma {:induction false} SameNulls<V>(a: seq<Option<V>>, b: seq<Option<V>>)
    requires |a| == |b| && Stored(a) == Stored(b)
    requires forall k | 0 <= k < |a| :: a[k].Some? <==> b[k].Some?
    ensures a == b
  {
    if a != [] {
      var n := |a| - 1;
      assert Stored(a)[..|Stored(a[..n])|] == Stored(a[..n]);
      assert Stored(b)[..|Stored(b[..n])|] == Stored(b[..n]);
      SameNulls(a[..n], b[..n]);
      assert a == a[..n] + [a[n]] && b == b[..n] + [b[n]];
    }
  }
}
