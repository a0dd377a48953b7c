/** Arrays as nested Python lists (src/pyclient/pyconversions.c): a flat array with its dimensions
    becomes nested lists; on the way back the dimensions are read off the first elements and an
    odometer of positions walks the lists in row-major order. */
module NestedArrays {
  import opened Basics

  const MAX_ARRAY_DIMS: nat := 10

  /** A Python value as far as arrays go. A leaf is no sequence, or a string that the code knows as one.
      Own is a sequence that is not taken for a string and is its own first item, as every unicode string
      of one character is under Python 2; longer ones have such a string as their first item. */
  datatype Py<V> = PyNone | Leaf(v: V) | Own(v: V, more: nat) | List(items: seq<Py<V>>)

  function Element<V>(x: Option<V>): Py<V> {
    if x.None? then PyNone else Leaf(x.value)
  }

  function Product(dims: seq<nat>): nat {
    if dims == [] then 1 else dims[0] * Product(dims[1..])
  }

  predicate Positive(dims: seq<nat>) {
    forall i | 0 <= i < |dims| :: dims[i] > 0
  }

  /** Dimensions that nested lists can show: only the innermost lists may be empty. */
  predicate Proper(dims: seq<nat>) {
    dims != [] && forall i | 0 <= i < |dims| - 1 :: dims[i] > 0
  }

  lemma MulSucc(i: nat, p: nat)
    ensures (i + 1) * p == i * p + p
  {
  }

  lemma {:induction false} MulMono(i: nat, n: nat, p: nat)
    requires i < n
    ensures (i + 1) * p == i * p + p <= n * p
  {
    MulSucc(i, p);
    if i + 1 < n {
      MulMono(i, n - 1, p);
      MulSucc(n - 1, p);
    }
  }

  /** The p elements from lo on. */
  function Piece<T>(s: seq<T>, lo: nat, p: nat): seq<T> {
    if lo + p <= |s| then s[lo..lo + p] else []
  }

  /** The i-th of consecutive blocks of length p. */
  function Chunk<T>(s: seq<T>, i: nat, p: nat): seq<T> {
    Piece(s, i * p, p)
  }

  lemma ChunkLength<T>(s: seq<T>, i: nat, n: nat, p: nat)
    requires i < n && |s| == n * p
    ensures |Chunk(s, i, p)| == p
  {
    MulMono(i, n, p);
  }

  lemma PieceOfSlice<T>(s: seq<T>, start: nat, end: nat, lo: nat, p: nat)
    requires start + lo + p <= end <= |s|
    ensures Piece(s[start..end], lo, p) == s[start + lo..start + lo + p]
  {
    SliceOfSlice(s, start, end, lo, lo + p);
  }

  lemma ChunkOfSlice<T>(s: seq<T>, start: nat, end: nat, at: nat, i: nat, n: nat, p: nat)
    requires i < n && end == start + n * p <= |s| && at == start + i * p
    ensures at + p <= end && at + p == start + (i + 1) * p
    ensures |Chunk(s[start..end], i, p)| == p && s[at..at + p] == Chunk(s[start..end], i, p)
  {
    hide Piece;
    MulMono(i, n, p);
    PieceOfSlice(s, start, end, at - start, p);
  }

  lemma ChunkIndex<T>(s: seq<T>, i: nat, n: nat, p: nat, k: nat)
    requires i < n && |s| == n * p && k < p
    ensures |Chunk(s, i, p)| == p && i * p + k < |s| && Chunk(s, i, p)[k] == s[i * p + k]
  {
    MulMono(i, n, p);
    PieceIndex(s, i * p, p, k);
  }

  lemma PieceIndex<T>(s: seq<T>, lo: nat, p: nat, k: nat)
    requires lo + p <= |s| && k < p
    ensures |Piece(s, lo, p)| == p && Piece(s, lo, p)[k] == s[lo + k]
  {
  }

  // ------------------------------------------------ flat array to nested list

  /** The nested list, dimension by dimension. */
  function Nest<V>(dims: seq<nat>, vals: seq<Option<V>>): Py<V>
    requires |vals| == Product(dims)
    decreases |dims|
  {
    if dims == [] then Element(vals[0])
    else
      var p := Product(dims[1..]);
      List(seq(dims[0], i requires 0 <= i < dims[0] =>
        ChunkLength(vals, i, dims[0], p);
        Nest(dims[1..], Chunk(vals, i, p))))
  }

  /** plc_pyobject_from_array_dim: builds one dimension and moves the cursor past its elements. */
  method BuildDim<V>(dims: seq<nat>, vals: seq<Option<V>>, dim: nat, start: nat) returns (obj: Py<V>, ipos: nat)
    requires dim <= |dims| && start + Product(dims[dim..]) <= |vals|
    ensures ipos == start + Product(dims[dim..])
    ensures obj == Nest(dims[dim..], vals[start..ipos])
    decreases |dims| - dim
  {
    hide Chunk;
    ipos := start;
    if dim == |dims| {
      obj := Element(vals[ipos]);
      ipos := ipos + 1;
    } else {
      ghost var p := Product(dims[dim + 1..]);
      ghost var block := vals[start..start + Product(dims[dim..])];
      assert dims[dim..][1..] == dims[dim + 1..];
      var items: seq<Py<V>> := [];
      for i := 0 to dims[dim]
        invariant |items| == i && ipos == start + i * p
        invariant forall j | 0 <= j < i ::
                    |Chunk(block, j, p)| == p && items[j] == Nest(dims[dim + 1..], Chunk(block, j, p))
      {
        ChunkOfSlice(vals, start, start + Product(dims[dim..]), ipos, i, dims[dim], p);
        var item;
        item, ipos := BuildDim(dims, vals, dim + 1, ipos);
        items := items + [item];
      }
      obj := List(items);
      assert items == Nest(dims[dim..], block).items;
    }
  }

  /** plc_pyobject_from_array */
  method FromArray<V>(dims: seq<nat>, vals: seq<Option<V>>) returns (obj: Py<V>)
    requires dims != [] ==> |vals| == Product(dims)
    ensures obj == if dims == [] then List([]) else Nest(dims, vals)
  {
    if dims == [] {
      return List([]);
    }
    var ipos;
    assert dims[0..] == dims;
    obj, ipos := BuildDim(dims, vals, 0, 0);
    assert vals[0..ipos] == vals;
  }

  // ----------------------------------------------------- dimensions read back

  /** The lengths met along the first elements, down to something that is no list or to an empty
      list. */
  function FirstDims<V>(obj: Py<V>): (dims: seq<nat>)
    ensures obj.List? ==> Proper(dims) && dims[0] == |obj.items|
  {
    if !obj.List? then []
    else if obj.items == [] || !obj.items[0].List? then [|obj.items|]
    else [|obj.items|] + FirstDims(obj.items[0])
  }

  /** The d-th list on that way. */
  function FirstList<V>(obj: Py<V>, d: nat): (l: Py<V>)
    requires obj.List? && d < |FirstDims(obj)|
    ensures l.List? && FirstDims(l) == FirstDims(obj)[d..]
  {
    if d == 0 then obj
    else
      assert FirstDims(obj)[d..] == FirstDims(obj.items[0])[d - 1..];
      FirstList(obj.items[0], d - 1)
  }

  /** The way along the first elements never ends. */
  predicate Endless<V>(obj: Py<V>) {
    obj.Own? || (obj.List? && obj.items != [] && Endless(obj.items[0]))
  }

  /** plc_pyobject_as_array, first part: lengths and lists are written into arrays of ten places. They
      are overrun by lists in lists deeper than that, by sequences that are their own first item, and by
      nothing else. */
  method Discover<V>(obj: Py<V>) returns (overrun: bool, ndims: nat, dims: array<nat>, stack: array<Py<V>>)
    requires obj.List? || obj.Own?
    ensures overrun <==> Endless(obj) || |FirstDims(obj)| > MAX_ARRAY_DIMS
    ensures fresh(dims) && fresh(stack) && dims.Length == stack.Length == MAX_ARRAY_DIMS && ndims <= MAX_ARRAY_DIMS
    ensures !overrun ==> dims[..ndims] == FirstDims(obj)
    ensures !overrun ==> forall d | 0 <= d < ndims :: d < |FirstDims(obj)| && stack[d] == FirstList(obj, d)
  {
    hide FirstDims, FirstList;
    dims := new nat[MAX_ARRAY_DIMS](_ => 0);
    stack := new Py<V>[MAX_ARRAY_DIMS](_ => PyNone);
    ndims, overrun := 0, false;
    var cur := obj;
    if obj.List? {
      FirstListStart(obj);
    }
    while cur.List? || cur.Own?
      invariant ndims <= MAX_ARRAY_DIMS && (Endless(obj) <==> Endless(cur))
      invariant !cur.Own? ==> OnTheWay(obj, cur, ndims, dims[..], stack[..])
      decreases MAX_ARRAY_DIMS - ndims
    {
      if ndims == MAX_ARRAY_DIMS {
        return true, ndims, dims, stack;
      }
      if cur.Own? {
        dims[ndims], stack[ndims] := 1 + cur.more, cur;
        ndims := ndims + 1;
      } else {
        FirstListStep(obj, ndims);
        Record(dims, stack, ndims, cur, FirstDims(obj));
        ndims := ndims + 1;
        if |cur.items| > 0 {
          cur := cur.items[0];
        } else {
          break;
        }
      }
    }
  }

  /** After d steps along the first elements, with the lengths and lists met written down. */
  ghost predicate OnTheWay<V>(obj: Py<V>, cur: Py<V>, d: nat, dims: seq<nat>, stack: seq<Py<V>>)
    requires d <= |dims| && d <= |stack|
  {
    && obj.List? && d <= |FirstDims(obj)| && dims[..d] == FirstDims(obj)[..d]
    && (cur.List? <==> d < |FirstDims(obj)|) && (cur.List? ==> cur == FirstList(obj, d))
    && forall k | 0 <= k < d :: stack[k] == FirstList(obj, k)
  }

  method Record<V>(dims: array<nat>, stack: array<Py<V>>, ndims: nat, cur: Py<V>, ghost all: seq<nat>)
    requires ndims < dims.Length && ndims < stack.Length && cur.List? && ndims < |all| && all[ndims] == |cur.items|
    requires dims[..ndims] == all[..ndims]
    modifies dims, stack
    ensures dims[..ndims + 1] == all[..ndims + 1] && stack[ndims] == cur
    ensures forall d | 0 <= d < ndims :: stack[d] == old(stack[d])
  {
    dims[ndims] := |cur.items|;
    stack[ndims] := cur;
    assert dims[..ndims + 1] == dims[..ndims] + [|cur.items|];
  }

  lemma FirstListStart<V>(obj: Py<V>)
    requires obj.List?
    ensures FirstDims(obj) != [] && FirstList(obj, 0) == obj
  {
  }

  lemma {:induction false} FirstListStep<V>(obj: Py<V>, d: nat)
    requires obj.List? && d < |FirstDims(obj)|
    ensures FirstDims(obj)[d] == |FirstList(obj, d).items|
    ensures d + 1 < |FirstDims(obj)| <==> FirstList(obj, d).items != [] && FirstList(obj, d).items[0].List?
    ensures d + 1 < |FirstDims(obj)| ==> FirstList(obj, d + 1) == FirstList(obj, d).items[0]
    decreases d
  {
    if d > 0 {
      FirstListStep(obj.items[0], d - 1);
    }
  }

  /** [u'a'] under Python 2: one list deep. */
  lemma OwnItemOverruns<V>(v: V, more: nat)
    ensures var obj := List([Own(v, more)]); Endless(obj) && FirstDims(obj) == [1]
  {
    var obj := List([Own(v, more)]);
    assert Endless(obj.items[0]);
  }

  /** Eleven lists inside each other are one too many. */
  lemma DeepListOverruns<V>(x: Py<V>)
    requires !x.List?
    ensures |FirstDims(Deep(11, x))| == 11 > MAX_ARRAY_DIMS
  {
    DeepDims(11, x);
  }

  function Deep<V>(n: nat, x: Py<V>): (obj: Py<V>)
    requires !x.List?
    ensures n > 0 <==> obj.List?
  {
    if n == 0 then x else List([Deep(n - 1, x)])
  }

  lemma {:induction false} DeepDims<V>(n: nat, x: Py<V>)
    requires !x.List? && n > 0
    ensures |FirstDims(Deep(n, x))| == n
  {
    if n > 1 {
      DeepDims(n - 1, x);
    }
  }

  // ---------------------------------------------------------------- odometer

  /** A position in each dimension. */
  predicate InRange(dims: seq<nat>, pos: seq<nat>) {
    |pos| == |dims| && forall i | 0 <= i < |dims| :: pos[i] < dims[i]
  }

  /** Row-major number of a position. */
  function Rank(dims: seq<nat>, pos: seq<nat>): nat
    requires InRange(dims, pos)
    decreases |dims|
  {
    if dims == [] then 0 else pos[0] * Product(dims[1..]) + Rank(dims[1..], pos[1..])
  }

  lemma {:induction false} RankBound(dims: seq<nat>, pos: seq<nat>)
    requires InRange(dims, pos)
    ensures Rank(dims, pos) < Product(dims)
    decreases |dims|
  {
    if dims != [] {
      RankBound(dims[1..], pos[1..]);
      MulMono(pos[0], dims[0], Product(dims[1..]));
    }
  }

  function Zeros(n: nat): (z: seq<nat>)
    ensures |z| == n && forall i | 0 <= i < n :: z[i] == 0
  {
    seq(n, _ => 0)
  }

  lemma {:induction false} RankOfZeros(dims: seq<nat>)
    requires Positive(dims)
    ensures Rank(dims, Zeros(|dims|)) == 0
    decreases |dims|
  {
    if dims != [] {
      RankOfZeros(dims[1..]);
      assert Zeros(|dims|)[1..] == Zeros(|dims| - 1);
    }
  }

  /** The next position in row-major order; None after the last. */
  function Next(dims: seq<nat>, pos: seq<nat>): (r: Option<seq<nat>>)
    requires InRange(dims, pos)
    ensures r.Some? ==> InRange(dims, r.value)
    decreases |dims|
  {
    if dims == [] then None
    else
      var inner := Next(dims[1..], pos[1..]);
      if inner.Some? then Some([pos[0]] + inner.value)
      else if pos[0] + 1 < dims[0] then Some([pos[0] + 1] + Zeros(|dims| - 1))
      else None
  }

  /** Next adds one to the row-major number and stops at the last element. */
  lemma {:induction false} NextIsSuccessor(dims: seq<nat>, pos: seq<nat>)
    requires InRange(dims, pos)
    ensures Next(dims, pos).Some? ==> Rank(dims, Next(dims, pos).value) == Rank(dims, pos) + 1
    ensures Next(dims, pos).None? ==> Rank(dims, pos) + 1 == Product(dims)
    decreases |dims|
  {
    if dims != [] {
      var p := Product(dims[1..]);
      NextIsSuccessor(dims[1..], pos[1..]);
      var inner := Next(dims[1..], pos[1..]);
      if inner.Some? {
        assert ([pos[0]] + inner.value)[1..] == inner.value;
      } else {
        assert (pos[0] + 1) * p == pos[0] * p + p;
        if pos[0] + 1 < dims[0] {
          RankOfZeros(dims[1..]);
          assert ([pos[0] + 1] + Zeros(|dims| - 1))[1..] == Zeros(|dims| - 1);
        }
      }
    }
  }

  /** One digit raised, all digits after it back to zero. */
  function Bump(pos: seq<nat>, ptr: nat): (r: seq<nat>)
    requires ptr < |pos|
    ensures |r| == |pos|
  {
    pos[..ptr] + ([pos[ptr] + 1] + Zeros(|pos| - ptr - 1))
  }

  lemma BumpTail(pos: seq<nat>, ptr: nat)
    requires 0 < ptr < |pos|
    ensures Bump(pos, ptr) == [pos[0]] + Bump(pos[1..], ptr - 1)
  {
  }

  /** A full digit passes the carry on. */
  lemma CarryOn(dims: seq<nat>, pos: seq<nat>, ptr: nat)
    requires InRange(dims, pos) && ptr < |dims|
    requires Next(dims[ptr + 1..], pos[ptr + 1..]).None? && pos[ptr] + 1 == dims[ptr]
    ensures Next(dims[ptr..], pos[ptr..]).None?
  {
    assert dims[ptr..][1..] == dims[ptr + 1..] && pos[ptr..][1..] == pos[ptr + 1..];
  }

  /** The carry stops at the first digit from the right that is not full. */
  lemma {:induction false} CarryStops(dims: seq<nat>, pos: seq<nat>, ptr: nat)
    requires InRange(dims, pos) && ptr < |dims|
    requires Next(dims[ptr + 1..], pos[ptr + 1..]).None? && pos[ptr] + 1 < dims[ptr]
    ensures Next(dims, pos) == Some(Bump(pos, ptr))
    decreases ptr
  {
    if ptr > 0 {
      var (ds, ps) := (dims[1..], pos[1..]);
      assert ds[ptr..] == dims[ptr + 1..] && ps[ptr..] == pos[ptr + 1..];
      CarryStops(ds, ps, ptr - 1);
      BumpTail(pos, ptr);
    } else {
      assert Bump(pos, 0) == [pos[0] + 1] + Zeros(|pos| - 1);
    }
  }

  // ------------------------------------------------- the list at a position

  predicate Shaped<V>(dims: seq<nat>, obj: Py<V>)
    decreases |dims|
  {
    if dims == [] then obj.PyNone? || obj.Leaf?
    else obj.List? && |obj.items| == dims[0] && forall i | 0 <= i < dims[0] :: Shaped(dims[1..], obj.items[i])
  }

  /** Lists where lists are expected and none where elements are, as far as there is anything. */
  predicate Layered<V>(dims: seq<nat>, obj: Py<V>)
    requires dims != []
    decreases |dims|
  {
    && obj.List?
    && (|dims| == 1 ==> forall i | 0 <= i < |obj.items| :: i < dims[0] ==> !obj.items[i].List?)
    && (|dims| > 1 ==> forall i | 0 <= i < |obj.items| :: i < dims[0] ==> Layered(dims[1..], obj.items[i]))
  }

  /** ... and long enough in every dimension but the last: innermost lists may have any length. */
  predicate Covers<V>(dims: seq<nat>, obj: Py<V>)
    requires dims != []
    decreases |dims|
  {
    && obj.List?
    && (|dims| == 1 ==> forall i | 0 <= i < |obj.items| :: i < dims[0] ==> !obj.items[i].List?)
    && (|dims| > 1 ==> |obj.items| >= dims[0] && forall i | 0 <= i < dims[0] :: Covers(dims[1..], obj.items[i]))
  }

  /** PySequence_GetItem: null for a missing item and for an item of null. */
  function GetItem<V>(obj: Option<Py<V>>, i: nat): Option<Py<V>> {
    if obj.Some? && obj.value.List? && i < |obj.value.items| then Some(obj.value.items[i]) else None
  }

  /** What an item is sent as: a missing one as None. */
  function Sent<V>(x: Option<Py<V>>): Py<V> {
    if x.None? then PyNone else if x.value.Own? then Leaf(x.value.v) else x.value
  }

  /** The rectangular list that a list is read as: longer lists are cut, short innermost lists are
      filled up with None. */
  function Fit<V>(dims: seq<nat>, obj: Py<V>): Py<V>
    requires dims != [] && Covers(dims, obj)
    decreases |dims|
  {
    if |dims| == 1 then List(seq(dims[0], i requires 0 <= i => Sent(GetItem(Some(obj), i))))
    else List(seq(dims[0], i requires 0 <= i < dims[0] => Fit(dims[1..], obj.items[i])))
  }

  lemma {:induction false} FitShaped<V>(dims: seq<nat>, obj: Py<V>)
    requires dims != [] && Covers(dims, obj)
    ensures Shaped(dims, Fit(dims, obj))
    decreases |dims|
  {
    if |dims| == 1 {
      assert dims[1..] == [];
    } else {
      forall i | 0 <= i < dims[0] ensures Shaped(dims[1..], Fit(dims, obj).items[i]) {
        FitShaped(dims[1..], obj.items[i]);
      }
    }
  }

  /** A rectangular list is read as it is, with its own dimensions. */
  lemma {:induction false} FitOfShaped<V>(dims: seq<nat>, obj: Py<V>)
    requires Proper(dims) && Shaped(dims, obj)
    ensures FirstDims(obj) == dims && Covers(dims, obj) && Fit(dims, obj) == obj
    decreases |dims|
  {
    if |dims| == 1 {
      assert dims[1..] == [];
      assert Fit(dims, obj).items == obj.items;
    } else {
      forall i | 0 <= i < dims[0]
        ensures Covers(dims[1..], obj.items[i]) && Fit(dims[1..], obj.items[i]) == obj.items[i]
      {
        FitOfShaped(dims[1..], obj.items[i]);
      }
      FitOfShaped(dims[1..], obj.items[0]);
      assert Fit(dims, obj).items == obj.items;
      assert dims == [dims[0]] + dims[1..];
    }
  }

  /** What lies at the end of a path in a rectangular list. */
  function At<V>(dims: seq<nat>, obj: Py<V>, path: seq<nat>): Py<V>
    requires Shaped(dims, obj) && InRange(dims, path)
    decreases |dims|
  {
    if dims == [] then obj else At(dims[1..], obj.items[path[0]], path[1..])
  }

  /** Where a path leads; null once an item is missing. */
  function PathAt<V>(obj: Option<Py<V>>, path: seq<nat>): Option<Py<V>>
    decreases |path|
  {
    if path == [] then obj else PathAt(GetItem(obj, path[0]), path[1..])
  }

  /** One more step along a path. */
  lemma {:induction false} PathAtStep<V>(obj: Option<Py<V>>, path: seq<nat>, i: nat)
    ensures PathAt(obj, path + [i]) == GetItem(PathAt(obj, path), i)
    decreases |path|
  {
    if path == [] {
      assert [i][1..] == [];
    } else {
      PathAtStep(GetItem(obj, path[0]), path[1..], i);
      assert (path + [i])[1..] == path[1..] + [i];
    }
  }

  /** If lists are long enough, no list is missing anywhere. */
  lemma {:induction false} CoversPath<V>(dims: seq<nat>, obj: Py<V>, path: seq<nat>)
    requires |path| < |dims| && Covers(dims, obj) && InRange(dims[..|path|], path)
    ensures PathAt(Some(obj), path).Some?
    decreases |dims|
  {
    if path != [] {
      assert dims[..|path|][0] == dims[0] && dims[..|path|][1..] == dims[1..][..|path| - 1];
      CoversPath(dims[1..], obj.items[path[0]], path[1..]);
    }
  }

  lemma {:induction false} LayeredAt<V>(dims: seq<nat>, obj: Py<V>, pos: seq<nat>)
    requires dims != [] && Layered(dims, obj) && InRange(dims, pos)
    ensures PathAt(Some(obj), pos).Some? ==> !PathAt(Some(obj), pos).value.List?
    decreases |dims|
  {
    var x := GetItem(Some(obj), pos[0]);
    if |dims| == 1 {
      assert pos[1..] == [];
      assert PathAt(x, pos[1..]) == x;
    } else if x.Some? {
      LayeredAt(dims[1..], x.value, pos[1..]);
    } else {
      NoPath<V>(pos[1..]);
    }
  }

  lemma {:induction false} NoPath<V>(path: seq<nat>)
    ensures PathAt<V>(None, path) == None
    decreases |path|
  {
    if path != [] {
      NoPath<V>(path[1..]);
    }
  }

  /** Nothing is missing in a rectangular list, and the way along its first elements ends. */
  lemma {:induction false} ShapedPath<V>(dims: seq<nat>, obj: Py<V>, pos: seq<nat>)
    requires Shaped(dims, obj) && InRange(dims, pos)
    ensures PathAt(Some(obj), pos).Some?
    decreases |dims|
  {
    if dims != [] {
      ShapedPath(dims[1..], obj.items[pos[0]], pos[1..]);
    }
  }

  lemma {:induction false} ShapedEnds<V>(dims: seq<nat>, obj: Py<V>)
    requires Shaped(dims, obj)
    ensures !Endless(obj)
    decreases |dims|
  {
    if dims != [] && obj.items != [] {
      ShapedEnds(dims[1..], obj.items[0]);
    }
  }

  lemma {:induction false} NestShaped<V>(dims: seq<nat>, vals: seq<Option<V>>)
    requires |vals| == Product(dims)
    ensures Shaped(dims, Nest(dims, vals))
    decreases |dims|
  {
    if dims != [] {
      var p := Product(dims[1..]);
      forall i | 0 <= i < dims[0] ensures Shaped(dims[1..], Nest(dims, vals).items[i]) {
        ChunkLength(vals, i, dims[0], p);
        NestShaped(dims[1..], Chunk(vals, i, p));
      }
    }
  }

  /** The nested list has at each position the element with that row-major number. */
  lemma {:induction false} NestAt<V>(dims: seq<nat>, vals: seq<Option<V>>, pos: seq<nat>)
    requires |vals| == Product(dims) && InRange(dims, pos)
    ensures Shaped(dims, Nest(dims, vals)) && Rank(dims, pos) < |vals|
    ensures At(dims, Nest(dims, vals), pos) == Element(vals[Rank(dims, pos)])
    decreases |dims|
  {
    hide Chunk;
    NestShaped(dims, vals);
    RankBound(dims, pos);
    if dims != [] {
      var p := Product(dims[1..]);
      var i := pos[0];
      RankBound(dims[1..], pos[1..]);
      ChunkIndex(vals, i, dims[0], p, Rank(dims[1..], pos[1..]));
      NestAt(dims[1..], Chunk(vals, i, p), pos[1..]);
    }
  }

  /** The element read at a position: the item of the innermost list there, or null. */
  lemma {:induction false} FitAt<V>(dims: seq<nat>, obj: Py<V>, pos: seq<nat>)
    requires dims != [] && Covers(dims, obj) && InRange(dims, pos)
    ensures Shaped(dims, Fit(dims, obj)) && At(dims, Fit(dims, obj), pos) == Sent(PathAt(Some(obj), pos))
    decreases |dims|
  {
    FitShaped(dims, obj);
    if |dims| == 1 {
      assert pos[1..] == [] && dims[1..] == [];
      assert PathAt(GetItem(Some(obj), pos[0]), pos[1..]) == GetItem(Some(obj), pos[0]);
    } else {
      FitAt(dims[1..], obj.items[pos[0]], pos[1..]);
    }
  }

  /** The step from this position on releases a list that is missing: every digit from d on is full, and
      the path up to d leads nowhere. */
  ghost predicate ReleasesNull<V>(dims: seq<nat>, obj: Py<V>, pos: seq<nat>)
    requires InRange(dims, pos)
  {
    exists d: nat | d < |dims| :: Next(dims[d..], pos[d..]).None? && PathAt(Some(obj), pos[..d]).None?
  }

  lemma CoversReleases<V>(dims: seq<nat>, obj: Py<V>, pos: seq<nat>)
    requires dims != [] && Covers(dims, obj) && InRange(dims, pos)
    ensures !ReleasesNull(dims, obj, pos)
  {
    forall d: nat | d < |dims| ensures PathAt(Some(obj), pos[..d]).Some? {
      CoversPath(dims, obj, pos[..d]);
    }
  }

  /** The last position. */
  function Last(dims: seq<nat>): (pos: seq<nat>)
    requires Positive(dims)
    ensures InRange(dims, pos)
  {
    seq(|dims|, i requires 0 <= i < |dims| => dims[i] - 1)
  }

  lemma {:induction false} LastIsLast(dims: seq<nat>)
    requires Positive(dims)
    ensures Next(dims, Last(dims)).None?
    decreases |dims|
  {
    if dims != [] {
      assert Last(dims)[1..] == Last(dims[1..]);
      LastIsLast(dims[1..]);
    }
  }

  lemma ReleaseBelow<V>(dims: seq<nat>, obj: Py<V>, pos: seq<nat>, d: nat)
    requires InRange(dims, pos) && d < |dims| - 1 && obj.List? && pos[0] < |obj.items|
    requires Next(dims[1..][d..], pos[1..][d..]).None? && PathAt(Some(obj.items[pos[0]]), pos[1..][..d]).None?
    ensures ReleasesNull(dims, obj, pos)
  {
    assert dims[1..][d..] == dims[d + 1..] && pos[1..][d..] == pos[d + 1..];
    assert pos[..d + 1][0] == pos[0] && pos[..d + 1][1..] == pos[1..][..d];
    assert PathAt(Some(obj), pos[..d + 1]).None?;
  }

  /** The first item that a list lacks. */
  lemma ReleaseHere<V>(dims: seq<nat>, obj: Py<V>)
    requires |dims| > 1 && Positive(dims) && obj.List? && |obj.items| < dims[0]
    ensures var pos := [|obj.items|] + Last(dims[1..]); InRange(dims, pos) && ReleasesNull(dims, obj, pos)
  {
    var n := |obj.items|;
    var pos := [n] + Last(dims[1..]);
    LastIsLast(dims[1..]);
    assert pos[1..] == Last(dims[1..]) && pos[..1] == [n] && [n][1..] == [];
    assert PathAt(Some(obj), [n]) == PathAt(GetItem(Some(obj), n), []);
  }

  /** If some list is too short before the last dimension, the walk comes to a missing list. */
  lemma {:induction false} ShortReleases<V>(dims: seq<nat>, obj: Py<V>) returns (pos: seq<nat>)
    requires dims != [] && Positive(dims) && Layered(dims, obj) && !Covers(dims, obj)
    ensures InRange(dims, pos) && ReleasesNull(dims, obj, pos)
    decreases |dims|
  {
    var ds := dims[1..];
    if |obj.items| < dims[0] {
      pos := [|obj.items|] + Last(ds);
      ReleaseHere(dims, obj);
    } else {
      var i :| 0 <= i < dims[0] && !Covers(ds, obj.items[i]);
      var x := obj.items[i];
      assert Layered(ds, x);
      hide Covers, Layered, PathAt, Next;
      var tail := ShortReleases(ds, x);
      var d: nat :| d < |ds| && Next(ds[d..], tail[d..]).None? && PathAt(Some(x), tail[..d]).None?;
      hide ReleasesNull;
      pos := [i] + tail;
      assert pos[1..] == tail;
      ReleaseBelow(dims, obj, pos, d);
    }
  }

  /** Where the carry stops, no digit further up counts as full. */
  lemma NoneFullAbove(dims: seq<nat>, pos: seq<nat>, ptr: nat)
    requires InRange(dims, pos) && ptr < |dims|
    requires Next(dims[ptr + 1..], pos[ptr + 1..]).None? && pos[ptr] + 1 < dims[ptr]
    ensures forall d: nat | d <= ptr :: Next(dims[d..], pos[d..]).Some?
  {
    forall d: nat | d <= ptr ensures Next(dims[d..], pos[d..]).Some? {
      assert dims[d..][ptr - d + 1..] == dims[ptr + 1..] && pos[d..][ptr - d + 1..] == pos[ptr + 1..];
      CarryStops(dims[d..], pos[d..], ptr - d);
    }
  }

  /** The lists below a digit are there to be released. */
  ghost predicate Held<V>(dims: seq<nat>, obj: Py<V>, pos: seq<nat>, ptr: int)
    requires |pos| == |dims|
  {
    forall d: nat | ptr < d < |dims| :: PathAt(Some(obj), pos[..d]).Some?
  }

  lemma NothingYet<V>(dims: seq<nat>, obj: Py<V>, pos: seq<nat>)
    requires InRange(dims, pos)
    ensures Next(dims[|dims|..], pos[|dims|..]).None? && Held(dims, obj, pos, |dims| - 1)
  {
  }

  lemma OneMoreHeld<V>(dims: seq<nat>, obj: Py<V>, pos: seq<nat>, ptr: nat)
    requires InRange(dims, pos) && ptr < |dims| && Next(dims[ptr..], pos[ptr..]).None? && Held(dims, obj, pos, ptr)
    ensures PathAt(Some(obj), pos[..ptr]).None? ==> ReleasesNull(dims, obj, pos)
    ensures PathAt(Some(obj), pos[..ptr]).Some? ==> Held(dims, obj, pos, ptr - 1)
  {
  }

  /** The carry stops at a digit, or not at all, after releasing only lists that were there. */
  lemma AllReleased<V>(dims: seq<nat>, obj: Py<V>, pos: seq<nat>, ptr: int)
    requires InRange(dims, pos) && -1 <= ptr < |dims| && Held(dims, obj, pos, ptr)
    requires ptr >= 0 ==> Next(dims[ptr + 1..], pos[ptr + 1..]).None? && pos[ptr] + 1 < dims[ptr]
    ensures !ReleasesNull(dims, obj, pos)
  {
    if ptr >= 0 {
      NoneFullAbove(dims, pos, ptr);
    }
    hide Next, PathAt;
  }

  /** The iterator: a position and the list it indexes, for each dimension. */
  class Iterator<V> {
    const dims: seq<nat>
    const pos: array<nat>
    const objs: array<Option<Py<V>>>
    ghost const root: Py<V>

    /** objs[d] is the list that the first d positions lead to, or null. */
    ghost predicate Valid()
      reads pos, objs
    {
      && dims != [] && Positive(dims) && pos.Length == |dims| && objs.Length == |dims|
      && Layered(dims, root) && InRange(dims, pos[..])
      && forall d | 0 <= d < |dims| :: OnPath(d)
    }

    ghost predicate OnPath(d: nat)
      requires d < |dims| && pos.Length == |dims| && objs.Length == |dims|
      reads pos, objs
    {
      objs[d] == PathAt(Some(root), pos[..d])
    }

    constructor (dims: seq<nat>, stack: seq<Py<V>>, ghost root: Py<V>)
      requires dims != [] && |stack| == |dims| && Positive(dims) && Layered(dims, root)
      requires forall d | 0 <= d < |dims| :: PathAt(Some(root), Zeros(d)) == Some(stack[d])
      ensures Valid() && this.dims == dims && this.root == root && pos[..] == Zeros(|dims|)
      ensures fresh(pos) && fresh(objs)
    {
      this.dims, this.root := dims, root;
      pos := new nat[|dims|](_ => 0);
      objs := new Option<Py<V>>[|dims|](i requires 0 <= i < |stack| => Some(stack[i]));
      new;
      assert pos[..] == Zeros(|dims|);
      forall d | 0 <= d < |dims| ensures OnPath(d) {
        assert pos[..d] == Zeros(d);
      }
    }

    /** Enters the lists below the digit that was raised. */
    method Refill(start: nat)
      requires 0 < start <= |dims| && pos.Length == |dims| && objs.Length == |dims|
      requires forall d | 0 <= d < start :: OnPath(d)
      modifies pos, objs
      ensures pos[..] == old(pos[..start]) + Zeros(|dims| - start)
      ensures forall d | 0 <= d < |dims| :: OnPath(d)
    {
      var ptr := start;
      while ptr < |dims|
        invariant start <= ptr <= |dims|
        invariant pos[..ptr] == old(pos[..start]) + Zeros(ptr - start)
        invariant forall d | 0 <= d < ptr :: OnPath(d)
      {
        EnterList(ptr);
        ptr := ptr + 1;
      }
      assert pos[..|dims|] == pos[..];
    }

    /** The list of the next dimension is the item at the current position. */
    method EnterList(ptr: nat)
      requires 0 < ptr < |dims| && pos.Length == |dims| && objs.Length == |dims|
      requires forall d | 0 <= d < ptr :: OnPath(d)
      modifies pos, objs
      ensures pos[..ptr + 1] == old(pos[..ptr]) + [0]
      ensures forall d | 0 <= d < ptr + 1 :: OnPath(d)
    {
      hide PathAt;
      assert OnPath(ptr - 1);
      PathAtStep(Some(root), pos[..ptr - 1], pos[ptr - 1]);
      assert pos[..ptr - 1] + [pos[ptr - 1]] == pos[..ptr];
      objs[ptr] := GetItem(objs[ptr - 1], pos[ptr - 1]);
      pos[ptr] := 0;
      assert pos[..ptr] == old(pos[..ptr]);
      forall d | 0 <= d < ptr + 1 ensures OnPath(d) {
        assert d < ptr ==> old(OnPath(d));
        assert pos[..d] == old(pos[..d]);
      }
    }

    /** Raises one digit and enters the lists below it. */
    method Raise(ptr: nat, ghost pos0: seq<nat>)
      requires ptr < |dims| && pos.Length == |dims| && objs.Length == |dims| && Positive(dims)
      requires Layered(dims, root) && InRange(dims, pos0) && pos[..ptr + 1] == pos0[..ptr + 1]
      requires pos0[ptr] + 1 < dims[ptr] && Next(dims[ptr + 1..], pos0[ptr + 1..]).None?
      requires forall d | 0 <= d <= ptr :: OnPath(d)
      modifies pos, objs
      ensures Valid() && Next(dims, pos0) == Some(pos[..])
    {
      hide Next, PathAt, Layered;
      CarryStops(dims, pos0, ptr);
      assert pos[ptr] == pos[..ptr + 1][ptr];
      pos[ptr] := pos[ptr] + 1;
      forall d | 0 <= d < ptr + 1 ensures OnPath(d) {
        assert old(OnPath(d));
        assert pos[..d] == old(pos[..d]);
      }
      assert pos[..ptr + 1] == pos0[..ptr + 1][..ptr] + [pos0[ptr] + 1] == pos0[..ptr] + [pos0[ptr] + 1];
      Refill(ptr + 1);
      Assoc(pos0[..ptr], [pos0[ptr] + 1], Zeros(|dims| - ptr - 1));
    }

    /** The odometer: from the last dimension, a full digit is cleared and its list released, the
        first digit that is not full is raised. A list that is missing cannot be released. */
    method Advance() returns (crash: bool)
      requires Valid()
      modifies pos, objs
      ensures InRange(dims, old(pos[..])) && (crash <==> ReleasesNull(dims, root, old(pos[..])))
      ensures !crash ==> Advanced(old(pos[..]))
    {
      hide PathAt, Next, Layered, ReleasesNull, Held;
      ghost var pos0 := pos[..];
      var ptr := |dims| - 1;
      NothingYet(dims, root, pos0);
      while ptr >= 0
        invariant -1 <= ptr < |dims|
        invariant Next(dims[ptr + 1..], pos0[ptr + 1..]).None?
        invariant pos[..ptr + 1] == pos0[..ptr + 1] && Held(dims, root, pos0, ptr)
        invariant forall d | 0 <= d <= ptr :: OnPath(d)
        invariant forall d | ptr < d < |dims| :: pos[d] == 0 && objs[d] == None
      {
        assert pos[ptr] == pos[..ptr + 1][ptr] == pos0[ptr];
        assert pos[..ptr] == pos0[..ptr + 1][..ptr] == pos0[..ptr];
        assert OnPath(ptr);
        if pos[ptr] + 1 == dims[ptr] {
          CarryOn(dims, pos0, ptr);
          OneMoreHeld(dims, root, pos0, ptr);
          if objs[ptr].None? {
            return true;
          }
          Release(ptr);
          ptr := ptr - 1;
        } else {
          AllReleased(dims, root, pos0, ptr);
          Raise(ptr, pos0);
          return false;
        }
      }
      assert dims[0..] == dims && pos0[0..] == pos0;
      AllReleased(dims, root, pos0, -1);
      return false;
    }

    method Release(ptr: nat)
      requires ptr < |dims| && pos.Length == |dims| && objs.Length == |dims|
      requires forall d | 0 <= d <= ptr :: OnPath(d)
      requires forall d | ptr < d < |dims| :: pos[d] == 0 && objs[d] == None
      requires objs[ptr].Some?
      modifies pos, objs
      ensures pos[..ptr] == old(pos[..ptr])
      ensures forall d | 0 <= d < ptr :: OnPath(d)
      ensures forall d | ptr <= d < |dims| :: pos[d] == 0 && objs[d] == None
    {
      hide PathAt;
      objs[ptr] := None;
      pos[ptr] := 0;
      forall d | 0 <= d < ptr ensures OnPath(d) {
        assert old(OnPath(d));
        assert pos[..d] == old(pos[..d]);
      }
    }

    /** At the next position, or past the last element with every list released. */
    ghost predicate Advanced(pos0: seq<nat>)
      requires pos.Length == |dims| && objs.Length == |dims|
      reads pos, objs
    {
      InRange(dims, pos0) &&
      if Next(dims, pos0).Some? then Valid() && pos[..] == Next(dims, pos0).value
      else forall d | 0 <= d < |dims| :: pos[d] == 0 && objs[d] == None
    }

    /** plc_pyobject_as_array_next: the element at the position, null when it is None or missing, then
        one step of the odometer. A missing item leaves an IndexError in Python's indicator. */
    method Step() returns (r: Option<V>, missing: bool, crash: bool)
      requires Valid()
      modifies pos, objs
      ensures InRange(dims, old(pos[..])) && Element(r) == Sent(PathAt(Some(root), old(pos[..])))
      ensures missing <==> PathAt(Some(root), old(pos[..])).None?
      ensures crash <==> ReleasesNull(dims, root, old(pos[..]))
      ensures !crash ==> Advanced(old(pos[..]))
    {
      var n := |dims|;
      assert OnPath(n - 1);
      LayeredAt(dims, root, pos[..]);
      PathAtStep(Some(root), pos[..n - 1], pos[n - 1]);
      assert pos[..n - 1] + [pos[n - 1]] == pos[..];
      hide PathAt, Layered;
      var x := GetItem(objs[n - 1], pos[n - 1]);
      missing := x.None?;
      r := if missing || x.value.PyNone? then None else Some(x.value.v);
      crash := Advance();
    }
  }

  /** The lists met on the way down are those the zero positions lead to. */
  lemma {:induction false} FirstListIsAt<V>(obj: Py<V>, d: nat)
    requires obj.List? && Positive(FirstDims(obj)) && d < |FirstDims(obj)|
    ensures PathAt(Some(obj), Zeros(d)) == Some(FirstList(obj, d))
  {
    if d > 0 {
      hide FirstDims, FirstList, PathAt;
      FirstListIsAt(obj, d - 1);
      FirstListStep(obj, d - 1);
      PathAtStep(Some(obj), Zeros(d - 1), 0);
      assert Zeros(d - 1) + [0] == Zeros(d);
    }
  }

  // -------------------------------------------------------------- round trips

  lemma {:induction false} RankInjective(dims: seq<nat>, a: seq<nat>, b: seq<nat>)
    requires InRange(dims, a) && InRange(dims, b) && Rank(dims, a) == Rank(dims, b)
    ensures a == b
    decreases |dims|
  {
    if dims != [] {
      RankBound(dims[1..], a[1..]);
      RankBound(dims[1..], b[1..]);
      if a[0] < b[0] {
        MulMono(a[0], b[0], Product(dims[1..]));
      } else if b[0] < a[0] {
        MulMono(b[0], a[0], Product(dims[1..]));
      }
      RankInjective(dims[1..], a[1..], b[1..]);
      assert a == [a[0]] + a[1..] && b == [b[0]] + b[1..];
    }
  }

  /** The first positions in row-major order. */
  ghost predicate Visited(dims: seq<nat>, seen: seq<seq<nat>>) {
    forall k | 0 <= k < |seen| :: InRange(dims, seen[k]) && Rank(dims, seen[k]) == k
  }

  /** As many positions as there are elements are all positions. */
  lemma AllVisited(dims: seq<nat>, seen: seq<seq<nat>>, pos: seq<nat>)
    requires Visited(dims, seen) && |seen| == Product(dims) && InRange(dims, pos)
    ensures pos in seen
  {
    RankBound(dims, pos);
    var k := Rank(dims, pos);
    RankInjective(dims, pos, seen[k]);
  }

  /** Some innermost list is too short. */
  ghost predicate Lacks<V>(dims: seq<nat>, obj: Py<V>) {
    exists pos :: InRange(dims, pos) && PathAt(Some(obj), pos).None?
  }

  ghost predicate LacksOneOf<V>(obj: Py<V>, seen: seq<seq<nat>>) {
    exists k | 0 <= k < |seen| :: PathAt(Some(obj), seen[k]).None?
  }

  lemma LacksAll<V>(dims: seq<nat>, obj: Py<V>, seen: seq<seq<nat>>)
    requires Visited(dims, seen) && |seen| == Product(dims)
    ensures LacksOneOf(obj, seen) <==> Lacks(dims, obj)
  {
    if pos :| InRange(dims, pos) && PathAt(Some(obj), pos).None? {
      AllVisited(dims, seen, pos);
      var k :| 0 <= k < |seen| && seen[k] == pos;
    }
  }

  lemma LacksSnoc<V>(obj: Py<V>, seen: seq<seq<nat>>, pos: seq<nat>)
    ensures LacksOneOf(obj, seen + [pos]) <==> LacksOneOf(obj, seen) || PathAt(Some(obj), pos).None?
  {
    var more := seen + [pos];
    assert more[|seen|] == pos;
    if k :| 0 <= k < |seen| && PathAt(Some(obj), seen[k]).None? {
      assert more[k] == seen[k];
    }
  }

  /** A walk over all positions that released no missing list shows that none is missing. */
  lemma WalkCovers<V>(dims: seq<nat>, obj: Py<V>, seen: seq<seq<nat>>)
    requires dims != [] && Positive(dims) && Layered(dims, obj)
    requires Visited(dims, seen) && |seen| == Product(dims)
    requires forall k | 0 <= k < |seen| :: InRange(dims, seen[k]) && !ReleasesNull(dims, obj, seen[k])
    ensures Covers(dims, obj)
  {
    if !Covers(dims, obj) {
      var pos := ShortReleases(dims, obj);
      AllVisited(dims, seen, pos);
    }
  }

  /** Takes size elements out of the iterator, as the sender of an array does: it crashes if and only if
      a list before the last dimension is too short. */
  method Drain<V>(it: Iterator<V>, ghost vals: seq<Option<V>>)
    returns (items: seq<Option<V>>, missing: bool, crash: bool)
    requires it.Valid() && it.pos[..] == Zeros(|it.dims|) && |vals| == Product(it.dims)
    requires Covers(it.dims, it.root) ==> Fit(it.dims, it.root) == Nest(it.dims, vals)
    modifies it.pos, it.objs
    ensures crash <==> !Covers(it.dims, it.root)
    ensures !crash ==> items == vals && (missing <==> Lacks(it.dims, it.root))
  {
    hide Fit, Nest, Covers, Layered, At, PathAt, ReleasesNull, Next, Lacks, LacksOneOf;
    var size := Product(it.dims);
    items, missing, crash := [], false, false;
    RankOfZeros(it.dims);
    ghost var seen: seq<seq<nat>> := [];
    assert !LacksOneOf(it.root, seen) by {
      LacksNone(it.root);
    }
    var i := 0;
    while i < size
      invariant 0 <= i <= size && |seen| == i && Visited(it.dims, seen) && it.dims != [] && Positive(it.dims)
      invariant Layered(it.dims, it.root)
      invariant forall k | 0 <= k < i :: InRange(it.dims, seen[k]) && !ReleasesNull(it.dims, it.root, seen[k])
      invariant Covers(it.dims, it.root) ==> items == vals[..i]
      invariant missing <==> LacksOneOf(it.root, seen)
      invariant i < size ==> it.Valid() && Rank(it.dims, it.pos[..]) == i
    {
      ghost var pos := it.pos[..];
      NextIsSuccessor(it.dims, pos);
      LacksSnoc(it.root, seen, pos);
      var r, lacks;
      r, lacks, crash := it.Step();
      if crash {
        ReleaseMeansShort(it.dims, it.root, pos);
        return;
      }
      if Covers(it.dims, it.root) {
        ElementRead(it.dims, it.root, vals, pos, r);
      }
      items := items + [r];
      missing := missing || lacks;
      seen := seen + [pos];
      i := i + 1;
    }
    WalkCovers(it.dims, it.root, seen);
    LacksAll(it.dims, it.root, seen);
  }

  lemma LacksNone<V>(obj: Py<V>)
    ensures !LacksOneOf(obj, [])
  {
  }

  lemma ReleaseMeansShort<V>(dims: seq<nat>, obj: Py<V>, pos: seq<nat>)
    requires dims != [] && InRange(dims, pos) && ReleasesNull(dims, obj, pos)
    ensures !Covers(dims, obj)
  {
    if Covers(dims, obj) {
      CoversReleases(dims, obj, pos);
    }
  }

  lemma ElementRead<V>(dims: seq<nat>, obj: Py<V>, vals: seq<Option<V>>, pos: seq<nat>, r: Option<V>)
    requires dims != [] && Covers(dims, obj) && InRange(dims, pos) && |vals| == Product(dims)
    requires Fit(dims, obj) == Nest(dims, vals) && Element(r) == Sent(PathAt(Some(obj), pos))
    ensures Rank(dims, pos) < |vals| && r == vals[Rank(dims, pos)]
  {
    hide Fit, Nest, Covers, PathAt, At;
    FitAt(dims, obj, pos);
    NestAt(dims, vals, pos);
  }

  /** What reading an object as an array comes to. The flag of an array says that items were missing, and
      so that an error is left in Python's indicator. */
  datatype Reading<V> = NotAList | Overrun | Crash | Array(dims: seq<nat>, items: seq<Option<V>>, missing: bool)

  ghost function ReadingOf<V>(obj: Py<V>, vals: seq<Option<V>>): Reading<V> {
    if !obj.List? && !obj.Own? then NotAList
    else if Endless(obj) || |FirstDims(obj)| > MAX_ARRAY_DIMS then Overrun
    else if Product(FirstDims(obj)) > 0 && !Covers(FirstDims(obj), obj) then Crash
    else Array(FirstDims(obj), vals, Lacks(FirstDims(obj), obj))
  }

  /** plc_pyobject_as_array and the loop that empties it. Anything but a list is refused; more than ten
      dimensions, or a sequence that is its own first item, overrun the arrays; a list too short before
      the last dimension makes it release a list that is not there, unless there is nothing to read at
      all. Otherwise dimensions and elements are those of the rectangular list that the list is read as. */
  method AsArray<V>(obj: Py<V>, ghost vals: seq<Option<V>>) returns (r: Reading<V>)
    requires obj.List? ==> Layered(FirstDims(obj), obj) && |vals| == Product(FirstDims(obj))
    requires obj.List? && Covers(FirstDims(obj), obj) ==> Fit(FirstDims(obj), obj) == Nest(FirstDims(obj), vals)
    ensures r == ReadingOf(obj, vals)
  {
    hide Fit, Nest, Covers, Layered, Lacks, PathAt;
    if !obj.List? && !obj.Own? {
      return NotAList;
    }
    var overrun, ndims, dims, stack := Discover(obj);
    if overrun {
      return Overrun;
    }
    var found := dims[..ndims];
    if Product(found) == 0 {
      LacksNothing(found, obj);
      return Array(found, [], false);
    }
    ProductZero(found);
    forall d | 0 <= d < ndims ensures PathAt(Some(obj), Zeros(d)) == Some(stack[d]) {
      FirstListIsAt(obj, d);
    }
    var it := new Iterator(found, stack[..ndims], obj);
    var items, missing, crash := Drain(it, vals);
    return if crash then Crash else Array(found, items, missing);
  }

  /** No position, nothing missing. */
  lemma LacksNothing<V>(dims: seq<nat>, obj: Py<V>)
    requires Product(dims) == 0
    ensures !Lacks(dims, obj)
  {
    if pos :| InRange(dims, pos) && PathAt(Some(obj), pos).None? {
      RankBound(dims, pos);
    }
  }

  lemma {:induction false} ProductZero(dims: seq<nat>)
    requires Product(dims) > 0
    ensures Positive(dims)
  {
    if dims != [] {
      if dims[0] > 0 && Product(dims[1..]) > 0 {
        ProductZero(dims[1..]);
        assert forall i | 0 < i < |dims| :: dims[i] == dims[1..][i - 1];
      }
    }
  }

  /** An array of at most ten dimensions given to Python and returned: same dimensions, same elements,
      same nulls. An array without dimensions comes back with one dimension of length zero. */
  method ArrayRoundTrip<V>(dims: seq<nat>, vals: seq<Option<V>>) returns (r: Reading<V>)
    requires Proper(dims) || dims == []
    requires |vals| == if dims == [] then 0 else Product(dims)
    ensures r == if |dims| > MAX_ARRAY_DIMS then Overrun else Array(if dims == [] then [0] else dims, vals, false)
  {
    var obj := FromArray(dims, vals);
    ghost var ds := if dims == [] then [0] else dims;
    assert obj == Nest(ds, vals);
    NestReadsAs(ds, vals);
    r := AsArray(obj, vals);
  }

  lemma NestReadsAs<V>(dims: seq<nat>, vals: seq<Option<V>>)
    requires Proper(dims) && |vals| == Product(dims)
    ensures var obj := Nest(dims, vals);
            && obj.List? && FirstDims(obj) == dims && Layered(dims, obj) && Covers(dims, obj) && Fit(dims, obj) == obj
            && ReadingOf(obj, vals) == if |dims| > MAX_ARRAY_DIMS then Overrun else Array(dims, vals, false)
  {
    var obj := Nest(dims, vals);
    NestShaped(dims, vals);
    FitOfShaped(dims, obj);
    ShapedEnds(dims, obj);
    CoversLayered(dims, obj);
    hide Nest, Shaped, Covers, Layered, Fit, FirstDims;
    forall pos | InRange(dims, pos) ensures PathAt(Some(obj), pos).Some? {
      ShapedPath(dims, obj, pos);
    }
  }

  lemma {:induction false} CoversLayered<V>(dims: seq<nat>, obj: Py<V>)
    requires dims != [] && Covers(dims, obj)
    ensures Layered(dims, obj)
    decreases |dims|
  {
    if |dims| > 1 {
      forall i | 0 <= i < dims[0] ensures Layered(dims[1..], obj.items[i]) {
        CoversLayered(dims[1..], obj.items[i]);
      }
    }
  }

  /** Every rectangular nested list is the nesting of some array. */
  lemma {:induction false} Unnest<V>(dims: seq<nat>, obj: Py<V>) returns (vals: seq<Option<V>>)
    requires Shaped(dims, obj)
    ensures |vals| == Product(dims) && obj == Nest(dims, vals)
    decreases |dims|, 1, 0
  {
    if dims == [] {
      vals := [if obj.PyNone? then None else Some(obj.v)];
    } else {
      vals := UnnestItems(dims[1..], obj.items);
      assert obj.items == Nest(dims, vals).items;
    }
  }

  lemma {:induction false} UnnestItems<V>(dims: seq<nat>, items: seq<Py<V>>) returns (vals: seq<Option<V>>)
    requires forall i | 0 <= i < |items| :: Shaped(dims, items[i])
    ensures |vals| == |items| * Product(dims)
    ensures forall i | 0 <= i < |items| :: |Chunk(vals, i, Product(dims))| == Product(dims)
              && items[i] == Nest(dims, Chunk(vals, i, Product(dims)))
    decreases |dims|, 2, |items|
  {
    var p := Product(dims);
    if items == [] {
      vals := [];
    } else {
      var n := |items| - 1;
      var front := UnnestItems(dims, items[..n]);
      var last := Unnest(dims, items[n]);
      vals := front + last;
      MulMono(n, n + 1, p);
      hide Chunk;
      forall i | 0 <= i < |items|
        ensures |Chunk(vals, i, p)| == p && items[i] == Nest(dims, Chunk(vals, i, p))
      {
        ChunkOfSnoc(front, last, i, n, p);
        assert i < n ==> items[..n][i] == items[i];
      }
    }
  }

  lemma ChunkOfSnoc<T>(front: seq<T>, last: seq<T>, i: nat, n: nat, p: nat)
    requires |front| == n * p && |last| == p && i <= n
    ensures Chunk(front + last, i, p) == if i < n then Chunk(front, i, p) else last
  {
    hide Piece;
    if i < n {
      MulMono(i, n, p);
      PieceOfFront(front, last, i * p, p);
    } else {
      PieceOfLast(front, last);
    }
  }

  lemma PieceOfFront<T>(front: seq<T>, last: seq<T>, lo: nat, p: nat)
    requires lo + p <= |front|
    ensures Piece(front + last, lo, p) == Piece(front, lo, p)
  {
    assert (front + last)[lo..lo + p] == front[lo..lo + p];
  }

  lemma PieceOfLast<T>(front: seq<T>, last: seq<T>)
    ensures Piece(front + last, |front|, |last|) == last
  {
    assert (front + last)[|front|..|front| + |last|] == last;
  }

  /** A list, read as an array and given back to Python, is the rectangular list it is read as, unless
      it has more than ten dimensions or no end. */
  method ListRoundTrip<V>(obj: Py<V>) returns (back: Option<Py<V>>)
    requires obj.List? && Covers(FirstDims(obj), obj)
    ensures back == if Endless(obj) || |FirstDims(obj)| > MAX_ARRAY_DIMS then None else Some(Fit(FirstDims(obj), obj))
  {
    FitShaped(FirstDims(obj), obj);
    CoversLayered(FirstDims(obj), obj);
    ghost var vals := Unnest(FirstDims(obj), Fit(FirstDims(obj), obj));
    var r := AsArray(obj, vals);
    if r.Overrun? {
      return None;
    }
    var list := FromArray(r.dims, r.items);
    back := Some(list);
  }

  /** [[a, b], [c]] is read as [[a, b], [c, None]], and an error is left for the next call. */
  lemma ShortListIsFilled<V>(a: V, b: V, c: V)
    ensures var obj := List([List([Leaf(a), Leaf(b)]), List([Leaf(c)])]);
            && FirstDims(obj) == [2, 2] && Covers([2, 2], obj) && Lacks([2, 2], obj)
            && Fit([2, 2], obj) == List([List([Leaf(a), Leaf(b)]), List([Leaf(c), PyNone])])
  {
    var (l1, l2) := (List([Leaf(a), Leaf(b)]), List([Leaf(c)]));
    assert [2, 2][1..] == [2];
    assert Fit([2], l1).items == l1.items && Fit([2], l2).items == [Leaf(c), PyNone];
    assert Fit([2, 2], List([l1, l2])).items == [Fit([2], l1), Fit([2], l2)];
      var obj := List([l1, l2]);
    assert InRange([2, 2], [1, 1]);
    PathAtStep(Some(obj), [1], 1);
    PathAtStep(Some(obj), [], 1);
    assert [1] + [1] == [1, 1] && [] + [1] == [1];
  }

  /** [[[a]], []] has dimensions 2, 1, 1 and no list at (1, 0): reading it crashes. */
  lemma MissingListCrashes<V>(a: V, vals: seq<Option<V>>)
    ensures var obj := List([List([List([Leaf(a)])]), List([])]);
            FirstDims(obj) == [2, 1, 1] && Layered([2, 1, 1], obj) && ReadingOf(obj, vals) == Crash
  {
    var inner := List([Leaf(a)]);
    var l1, l2: Py<V> := List([inner]), List([]);
    var obj := List([l1, l2]);
    assert FirstDims(inner) == [1] && FirstDims(l1) == [1, 1];
    assert FirstDims(obj) == [2] + [1, 1] == [2, 1, 1];
    assert [2, 1, 1][1..] == [1, 1] && [1, 1][1..] == [1] && [1][1..] == [];
    assert Layered([1], inner) && Layered([1, 1], l1) && Layered([1, 1], l2);
    assert !Covers([1, 1], l2);
    assert obj.items[1] == l2 && !Covers([2, 1, 1], obj);
    assert Product([1]) == 1 && Product([1, 1]) == 1 && Product([2, 1, 1]) == 2;
    assert !Endless(Leaf(a)) && !Endless(inner) && !Endless(l1) && !Endless(obj);
  }
}
