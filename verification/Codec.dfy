/** The wire format of src/common/comm_channel.c as a pure encoder and decoder.

    Fixed-width scalars travel as opaque bytes of their length; counts and lengths are
    little-endian two's complement, which is the native layout on both ends.
 */
module Codec {
  import opened Basics
  import opened ByteStream

  /** The outcome of a receive function: a value and the bytes after it, or an error. */
  datatype Parse<+T> = Done(value: T, rest: seq<byte>) | Fail
  {
    predicate IsFailure() { Fail? }
    function PropagateFailure<U>(): Parse<U> requires Fail? { Fail }
    function Extract(): (T, seq<byte>) requires Done? { (value, rest) }
  }

  // ---------------------------------------------------------------- integers

  function Pow256(n: nat): (p: nat)
    ensures p >= 1
  {
    if n == 0 then 1 else 256 * Pow256(n - 1)
  }

  predicate FitsInt(x: int, n: nat) requires n > 0 {
    -128 * Pow256(n - 1) <= x < 128 * Pow256(n - 1)
  }

  function EncodeNat(x: nat, n: nat): (bs: seq<byte>)
    ensures |bs| == n
  {
    if n == 0 then [] else [(x % 256) as byte] + EncodeNat(x / 256, n - 1)
  }

  function DecodeNat(bs: seq<byte>): (x: nat)
    ensures x < Pow256(|bs|)
  {
    if bs == [] then 0 else bs[0] as int + 256 * DecodeNat(bs[1..])
  }

  function EncodeInt(x: int, n: nat): (bs: seq<byte>)
    requires n > 0 && FitsInt(x, n)
    ensures |bs| == n
  {
    EncodeNat(if x < 0 then x + Pow256(n) else x, n)
  }

  function TakeBytes(bs: seq<byte>, n: nat): Parse<seq<byte>> {
    if n <= |bs| then Done(bs[..n], bs[n..]) else Fail
  }

  function TakeNat(bs: seq<byte>, n: nat): Parse<nat> {
    if n <= |bs| then Done(DecodeNat(bs[..n]), bs[n..]) else Fail
  }

  function TakeInt(bs: seq<byte>, n: nat): (r: Parse<int>)
    requires n > 0
    ensures r.Done? ==> FitsInt(r.value, n) && |r.rest| == |bs| - n
  {
    if n <= |bs| then
      var u := DecodeNat(bs[..n]);
      Done(if u < 128 * Pow256(n - 1) then u else u - Pow256(n), bs[n..])
    else Fail
  }

  lemma {:induction false} NatRoundTrip(x: nat, n: nat)
    requires x < Pow256(n)
    ensures DecodeNat(EncodeNat(x, n)) == x
  {
    if n > 0 {
      NatRoundTrip(x / 256, n - 1);
      assert EncodeNat(x, n)[1..] == EncodeNat(x / 256, n - 1);
    }
  }

  lemma TakeNatRoundTrip(x: nat, n: nat, rest: seq<byte>)
    requires x < Pow256(n)
    ensures TakeNat(EncodeNat(x, n) + rest, n) == Done(x, rest)
  {
    NatRoundTrip(x, n);
    assert (EncodeNat(x, n) + rest)[..n] == EncodeNat(x, n);
    assert (EncodeNat(x, n) + rest)[n..] == rest;
  }

  lemma TakeIntRoundTrip(x: int, n: nat, rest: seq<byte>)
    requires n > 0 && FitsInt(x, n)
    ensures TakeInt(EncodeInt(x, n) + rest, n) == Done(x, rest)
  {
    TakeNatRoundTrip(if x < 0 then x + Pow256(n) else x, n, rest);
  }

  lemma TakeBytesRoundTrip(s: seq<byte>, rest: seq<byte>)
    ensures TakeBytes(s + rest, |s|) == Done(s, rest)
  {
    assert (s + rest)[..|s|] == s;
    assert (s + rest)[|s|..] == rest;
  }

  lemma Pow256Values()
    ensures Pow256(1) == 0x100 && Pow256(2) == 0x1_0000
    ensures Pow256(3) == 0x100_0000 && Pow256(4) == 0x1_0000_0000
  {
    assert Pow256(1) == 256 * Pow256(0);
    assert Pow256(2) == 256 * Pow256(1);
    assert Pow256(3) == 256 * Pow256(2);
    assert Pow256(4) == 256 * Pow256(3);
  }

  /** What an int32 field may hold; the same set as FitsInt(x, 4). */
  predicate IsInt32(x: int) { -0x8000_0000 <= x <= INT_MAX }

  function EncodeInt32(x: int): (bs: seq<byte>)
    requires IsInt32(x)
    ensures |bs| == 4
  {
    Pow256Values();
    EncodeInt(x, 4)
  }

  function TakeInt32(bs: seq<byte>): (r: Parse<int>)
    ensures r.Done? ==> IsInt32(r.value) && |r.rest| == |bs| - 4
  {
    Pow256Values();
    TakeInt(bs, 4)
  }

  lemma TakeInt32RoundTrip(x: int, rest: seq<byte>)
    requires IsInt32(x)
    ensures TakeInt32(EncodeInt32(x) + rest) == Done(x, rest)
  {
    Pow256Values();
    TakeIntRoundTrip(x, 4, rest);
  }

  // ----------------------------------------------------------------- strings

  /** A C string, or NULL: a null pointer and the empty string are different values. */
  type CString = Option<seq<byte>>

  predicate WellFormedString(s: CString) {
    s.Some? ==> |s.value| <= INT_MAX && 0 !in s.value
  }

  function EncodeString(s: CString): (bs: seq<byte>)
    requires WellFormedString(s)
  {
    if s.None? then EncodeInt32(-1) else EncodeInt32(|s.value|) + s.value
  }

  /** The receiver allocates the announced length, so it stores all the bytes it was sent. */
  function TakeString(bs: seq<byte>): (r: Parse<CString>)
    ensures r.Done? ==> |r.rest| < |bs|
  {
    var (cnt, bs1) :- TakeInt32(bs);
    if cnt == -1 then Done(None, bs1)
    else if cnt < 0 then Fail
    else
      var (s, bs2) :- TakeBytes(bs1, cnt);
      Done(Some(s), bs2)
  }

  lemma StringRoundTrip(s: CString, rest: seq<byte>)
    requires WellFormedString(s)
    ensures TakeString(EncodeString(s) + rest) == Done(s, rest)
  {
    if s.None? {
      TakeInt32RoundTrip(-1, rest);
    } else {
      assert EncodeString(s) + rest == EncodeInt32(|s.value|) + (s.value + rest);
      TakeInt32RoundTrip(|s.value|, s.value + rest);
      TakeBytesRoundTrip(s.value, rest);
    }
  }

  // ------------------------------------------------------------------- types

  datatype Kind =
    | Int1 | Int2 | Int4 | Int8 | Float4 | Float8 | Text | Array | Udt | Bytea
    | Other(code: byte)

  predicate ValidKind(k: Kind) { k.Other? ==> k.code >= 10 }

  predicate Nested(k: Kind) { k.Array? || k.Udt? }

  function KindCode(k: Kind): byte {
    match k
    case Int1 => 0 case Int2 => 1 case Int4 => 2 case Int8 => 3
    case Float4 => 4 case Float8 => 5 case Text => 6 case Array => 7
    case Udt => 8 case Bytea => 9 case Other(c) => c
  }

  function KindOf(c: byte): (k: Kind)
    ensures ValidKind(k) && KindCode(k) == c
  {
    if c == 0 then Int1 else if c == 1 then Int2 else if c == 2 then Int4
    else if c == 3 then Int8 else if c == 4 then Float4 else if c == 5 then Float8
    else if c == 6 then Text else if c == 7 then Array else if c == 8 then Udt
    else if c == 9 then Bytea else Other(c)
  }

  lemma KindRoundTrip(k: Kind)
    requires ValidKind(k)
    ensures KindOf(KindCode(k)) == k
  {
  }

  datatype Type = Type(kind: Kind, name: CString, subs: seq<Type>)

  predicate WellFormedType(t: Type) {
    && ValidKind(t.kind)
    && WellFormedString(t.name)
    && |t.subs| < 0x8000
    && (t.subs != [] ==> Nested(t.kind))
    && forall i | 0 <= i < |t.subs| :: WellFormedType(t.subs[i])
  }

  predicate IsInt16(x: int) { -0x8000 <= x < 0x8000 }

  function EncodeInt16(x: int): (bs: seq<byte>)
    requires IsInt16(x)
    ensures |bs| == 2
  {
    Pow256Values();
    EncodeInt(x, 2)
  }

  function TakeInt16(bs: seq<byte>): (r: Parse<int>)
    ensures r.Done? ==> IsInt16(r.value) && |r.rest| == |bs| - 2
  {
    Pow256Values();
    TakeInt(bs, 2)
  }

  lemma TakeInt16RoundTrip(x: int, rest: seq<byte>)
    requires IsInt16(x)
    ensures TakeInt16(EncodeInt16(x) + rest) == Done(x, rest)
  {
    Pow256Values();
    TakeIntRoundTrip(x, 2, rest);
  }

  function EncodeType(t: Type): (bs: seq<byte>)
    requires WellFormedType(t)
    decreases t, 2
  {
    [KindCode(t.kind)] + (EncodeString(t.name) + EncodeSubs(t))
  }

  function EncodeSubs(t: Type): (bs: seq<byte>)
    requires WellFormedType(t)
    decreases t, 1
  {
    if Nested(t.kind) then EncodeInt16(|t.subs|) + EncodeTypes(t.subs) else []
  }

  function EncodeTypes(ts: seq<Type>): (bs: seq<byte>)
    requires forall i | 0 <= i < |ts| :: WellFormedType(ts[i])
    decreases ts, 0
  {
    if ts == [] then [] else EncodeType(ts[0]) + EncodeTypes(ts[1..])
  }

  function TakeByte(bs: seq<byte>): Parse<byte> {
    if bs == [] then Fail else Done(bs[0], bs[1..])
  }

  function TakeType(bs: seq<byte>): (r: Parse<Type>)
    ensures r.Done? ==> |r.rest| < |bs|
    decreases |bs|, 0
  {
    var (code, bs1) :- TakeByte(bs);
    var (name, bs2) :- TakeString(bs1);
    var (subs, bs3) :- TakeSubs(KindOf(code), bs2);
    Done(Type(KindOf(code), name, subs), bs3)
  }

  function TakeSubs(kind: Kind, bs: seq<byte>): (r: Parse<seq<Type>>)
    ensures r.Done? ==> |r.rest| <= |bs|
    decreases |bs|, 0
  {
    if Nested(kind) then
      var (n, bs1) :- TakeInt16(bs);
      TakeTypes(if n < 0 then 0 else n, bs1)
    else
      Done([], bs)
  }

  function TakeTypes(n: nat, bs: seq<byte>): (r: Parse<seq<Type>>)
    ensures r.Done? ==> |r.value| == n && |r.rest| <= |bs|
    decreases |bs|, n
  {
    if n == 0 then Done([], bs)
    else
      var (t, bs1) :- TakeType(bs);
      var (ts, bs2) :- TakeTypes(n - 1, bs1);
      Done([t] + ts, bs2)
  }

  /** Concatenations are compared element by element; these lemmas keep that out of
      the larger proofs. */
  lemma TakeByteRoundTrip(b: byte, rest: seq<byte>)
    ensures TakeByte([b] + rest) == Done(b, rest)
  {
    assert ([b] + rest)[1..] == rest;
  }

  lemma {:induction false} TypeRoundTrip(t: Type, rest: seq<byte>)
    requires WellFormedType(t)
    ensures TakeType(EncodeType(t) + rest) == Done(t, rest)
    decreases t, 2
  {
    var (a, b, c) := ([KindCode(t.kind)], EncodeString(t.name), EncodeSubs(t));
    Assoc(a, b + c, rest);
    Assoc(b, c, rest);
    KindRoundTrip(t.kind);
    TakeByteRoundTrip(KindCode(t.kind), b + (c + rest));
    StringRoundTrip(t.name, c + rest);
    SubsRoundTrip(t, rest);
  }

  lemma {:induction false} SubsRoundTrip(t: Type, rest: seq<byte>)
    requires WellFormedType(t)
    ensures TakeSubs(t.kind, EncodeSubs(t) + rest) == Done(t.subs, rest)
    decreases t, 1
  {
    if Nested(t.kind) {
      Assoc(EncodeInt16(|t.subs|), EncodeTypes(t.subs), rest);
      TakeInt16RoundTrip(|t.subs|, EncodeTypes(t.subs) + rest);
      TypesRoundTrip(t.subs, rest);
    } else {
      assert EncodeSubs(t) + rest == rest;
    }
  }

  lemma {:induction false} TypesRoundTrip(ts: seq<Type>, rest: seq<byte>)
    requires forall i | 0 <= i < |ts| :: WellFormedType(ts[i])
    ensures TakeTypes(|ts|, EncodeTypes(ts) + rest) == Done(ts, rest)
    decreases ts, 0
  {
    if ts == [] {
      assert EncodeTypes(ts) + rest == rest;
    } else {
      Assoc(EncodeType(ts[0]), EncodeTypes(ts[1..]), rest);
      TypeRoundTrip(ts[0], EncodeTypes(ts[1..]) + rest);
      TypesRoundTrip(ts[1..], rest);
      assert [ts[0]] + ts[1..] == ts;
    }
  }

  // ------------------------------------------------------------------ values

  /** A value of some type: null, a fixed-width scalar, text, bytea, an array as its
      dimensions and its items in row-major order, or a row of a composite type. */
  datatype Value =
    | Null
    | Scalar(bytes: seq<byte>)
    | Str(s: CString)
    | Blob(bytes: seq<byte>)
    | Arr(dims: seq<int>, items: seq<Value>)
    | Row(fields: seq<Value>)

  const TAG_NULL: byte := 'N' as byte
  const TAG_DATA: byte := 'D' as byte

  predicate FixedWidth(k: Kind) {
    k.Int1? || k.Int2? || k.Int4? || k.Int8? || k.Float4? || k.Float8?
  }

  function ScalarLength(k: Kind): (n: nat)
    requires FixedWidth(k)
    ensures n <= 8
  {
    match k
    case Int1 => 1 case Int2 => 2 case Int4 => 4
    case Int8 => 8 case Float4 => 4 case Float8 => 8
  }

  /** The left-to-right int32 product of the dimensions, or None when it overflows. */
  function SizeFrom(size: int, dims: seq<int>): Option<int>
    decreases |dims|
  {
    if dims == [] then Some(size)
    else if IsInt32(size * dims[0]) then SizeFrom(size * dims[0], dims[1..])
    else None
  }

  function ArraySize(dims: seq<int>): Option<int> {
    if dims == [] then Some(0) else SizeFrom(1, dims)
  }

  function ItemCount(size: int): nat { if size < 0 then 0 else size }

  predicate ItemKind(k: Kind) { !k.Array? && !k.Other? }

  predicate WellFormedDims(dims: seq<int>) {
    |dims| <= INT_MAX && forall i | 0 <= i < |dims| :: IsInt32(dims[i])
  }

  predicate WellFormedValue(t: Type, v: Value)
    decreases t, 1
  {
    match v
    case Null => true
    case Scalar(bs) => FixedWidth(t.kind) && |bs| == ScalarLength(t.kind)
    case Str(s) => t.kind.Text? && WellFormedString(s)
    case Blob(bs) => t.kind.Bytea? && |bs| <= INT_MAX
    case Arr(dims, items) =>
      && t.kind.Array? && t.subs != []
      && WellFormedDims(dims)
      && ArraySize(dims).Some? && |items| == ItemCount(ArraySize(dims).value)
      && (items != [] ==> ItemKind(t.subs[0].kind))
      && WellFormedItems(t.subs[0], items)
    case Row(fields) =>
      && t.kind.Udt? && |fields| == |t.subs|
      && forall i | 0 <= i < |fields| :: WellFormedValue(t.subs[i], fields[i])
  }

  predicate WellFormedItems(t: Type, items: seq<Value>)
    decreases t, 2
  {
    forall i | 0 <= i < |items| :: WellFormedValue(t, items[i])
  }

  predicate WellFormedFields(ts: seq<Type>, vs: seq<Value>) {
    |ts| == |vs| && forall i | 0 <= i < |vs| :: WellFormedValue(ts[i], vs[i])
  }

  function EncodeValue(t: Type, v: Value): (bs: seq<byte>)
    requires WellFormedValue(t, v)
    decreases t, 2
  {
    if v.Null? then [TAG_NULL] else [TAG_DATA] + EncodeBody(t, v)
  }

  function EncodeBody(t: Type, v: Value): (bs: seq<byte>)
    requires WellFormedValue(t, v) && !v.Null?
    decreases t, 1
  {
    match v
    case Scalar(bs) => bs
    case Str(s) => EncodeString(s)
    case Blob(bs) => EncodeInt32(|bs|) + bs
    case Arr(dims, items) =>
      EncodeInt32(|dims|) + (EncodeDims(dims) + EncodeItems(t.subs[0], items))
    case Row(fields) => EncodeFields(t.subs, fields)
  }

  function EncodeDims(dims: seq<int>): (bs: seq<byte>)
    requires forall i | 0 <= i < |dims| :: IsInt32(dims[i])
  {
    if dims == [] then [] else EncodeInt32(dims[0]) + EncodeDims(dims[1..])
  }

  function EncodeItems(t: Type, items: seq<Value>): (bs: seq<byte>)
    requires WellFormedItems(t, items)
    decreases t, 3, |items|
  {
    if items == [] then []
    else EncodeValue(t, items[0]) + EncodeItems(t, items[1..])
  }

  function EncodeFields(ts: seq<Type>, vs: seq<Value>): (bs: seq<byte>)
    requires WellFormedFields(ts, vs)
    decreases ts, 0
  {
    if vs == [] then []
    else EncodeValue(ts[0], vs[0]) + EncodeFields(ts[1..], vs[1..])
  }

  /** Any tag but 'N' announces data. */
  function TakeValue(t: Type, bs: seq<byte>): (r: Parse<Value>)
    decreases t, 2
  {
    var (tag, bs1) :- TakeByte(bs);
    if tag == TAG_NULL then Done(Null, bs1) else TakeBody(t, bs1)
  }

  function TakeBody(t: Type, bs: seq<byte>): (r: Parse<Value>)
    decreases t, 1
  {
    match t.kind
    case Text => var (s, bs1) :- TakeString(bs); Done(Str(s), bs1)
    case Bytea => var (b, bs1) :- TakeBlob(bs); Done(Blob(b), bs1)
    case Array => if t.subs == [] then Fail else TakeArray(t.subs[0], bs)
    case Udt => var (fs, bs1) :- TakeFields(t.subs, bs); Done(Row(fs), bs1)
    case Other(_) => Fail
    case _ => var (b, bs1) :- TakeBytes(bs, ScalarLength(t.kind)); Done(Scalar(b), bs1)
  }

  function TakeBlob(bs: seq<byte>): Parse<seq<byte>> {
    var (n, bs1) :- TakeInt32(bs);
    if n < 0 then Fail else TakeBytes(bs1, n)
  }

  /** Item types that have no length of their own fail before the first item is read. */
  function TakeArray(t: Type, bs: seq<byte>): Parse<Value>
    decreases t, 4
  {
    var (ndims, bs1) :- TakeInt32(bs);
    var (dims, bs2) :- TakeDims(ItemCount(ndims), bs1);
    var size := ArraySize(dims);
    if size.None? || (size.value > 0 && !ItemKind(t.kind)) then Fail
    else
      var (items, bs3) :- TakeItems(t, ItemCount(size.value), bs2);
      Done(Arr(dims, items), bs3)
  }

  function TakeDims(n: nat, bs: seq<byte>): (r: Parse<seq<int>>)
    ensures r.Done? ==> |r.value| == n
  {
    if n == 0 then Done([], bs)
    else
      var (d, bs1) :- TakeInt32(bs);
      var (ds, bs2) :- TakeDims(n - 1, bs1);
      Done([d] + ds, bs2)
  }

  function TakeItems(t: Type, n: nat, bs: seq<byte>): (r: Parse<seq<Value>>)
    ensures r.Done? ==> |r.value| == n
    decreases t, 3, n
  {
    if n == 0 then Done([], bs)
    else
      var (v, bs1) :- TakeValue(t, bs);
      var (vs, bs2) :- TakeItems(t, n - 1, bs1);
      Done([v] + vs, bs2)
  }

  function TakeFields(ts: seq<Type>, bs: seq<byte>): (r: Parse<seq<Value>>)
    ensures r.Done? ==> |r.value| == |ts|
    decreases ts, 0
  {
    if ts == [] then Done([], bs)
    else
      var (v, bs1) :- TakeValue(ts[0], bs);
      var (vs, bs2) :- TakeFields(ts[1..], bs1);
      Done([v] + vs, bs2)
  }

  lemma {:induction false} ValueRoundTrip(t: Type, v: Value, rest: seq<byte>)
    requires WellFormedValue(t, v)
    ensures TakeValue(t, EncodeValue(t, v) + rest) == Done(v, rest)
    decreases t, 2
  {
    if v.Null? {
      TakeByteRoundTrip(TAG_NULL, rest);
    } else {
      Assoc([TAG_DATA], EncodeBody(t, v), rest);
      TakeByteRoundTrip(TAG_DATA, EncodeBody(t, v) + rest);
      BodyRoundTrip(t, v, rest);
    }
  }

  lemma {:induction false} BodyRoundTrip(t: Type, v: Value, rest: seq<byte>)
    requires WellFormedValue(t, v) && !v.Null?
    ensures TakeBody(t, EncodeBody(t, v) + rest) == Done(v, rest)
    decreases t, 1
  {
    hide TakeArray, TakeFields, EncodeFields, EncodeItems, TakeString, EncodeString, TakeInt32, EncodeInt32, TakeBytes;
    match v
    case Scalar(bs) => TakeBytesRoundTrip(bs, rest);
    case Str(s) => StringRoundTrip(s, rest);
    case Blob(bs) =>
      Assoc(EncodeInt32(|bs|), bs, rest);
      TakeInt32RoundTrip(|bs|, bs + rest);
      TakeBytesRoundTrip(bs, rest);
    case Arr(dims, items) => ArrayRoundTrip(t.subs[0], dims, items, rest);
    case Row(fields) => FieldsRoundTrip(t.subs, fields, rest);
  }

  lemma {:induction false} ArrayRoundTrip(t: Type, dims: seq<int>, items: seq<Value>, rest: seq<byte>)
    requires WellFormedDims(dims) && ArraySize(dims).Some?
    requires |items| == ItemCount(ArraySize(dims).value)
    requires items != [] ==> ItemKind(t.kind)
    requires WellFormedItems(t, items)
    ensures TakeArray(t, EncodeInt32(|dims|) + (EncodeDims(dims) + EncodeItems(t, items)) + rest)
            == Done(Arr(dims, items), rest)
    decreases t, 4
  {
    var (a, b, c) := (EncodeInt32(|dims|), EncodeDims(dims), EncodeItems(t, items));
    Assoc(a, b + c, rest);
    Assoc(b, c, rest);
    TakeInt32RoundTrip(|dims|, b + (c + rest));
    DimsRoundTrip(dims, c + rest);
    ItemsRoundTrip(t, items, rest);
  }

  lemma {:induction false} DimsRoundTrip(dims: seq<int>, rest: seq<byte>)
    requires forall i | 0 <= i < |dims| :: IsInt32(dims[i])
    ensures TakeDims(|dims|, EncodeDims(dims) + rest) == Done(dims, rest)
  {
    if dims == [] {
      assert EncodeDims(dims) + rest == rest;
    } else {
      Assoc(EncodeInt32(dims[0]), EncodeDims(dims[1..]), rest);
      TakeInt32RoundTrip(dims[0], EncodeDims(dims[1..]) + rest);
      DimsRoundTrip(dims[1..], rest);
      assert [dims[0]] + dims[1..] == dims;
    }
  }

  lemma {:induction false} ItemsRoundTrip(t: Type, items: seq<Value>, rest: seq<byte>)
    requires WellFormedItems(t, items)
    ensures TakeItems(t, |items|, EncodeItems(t, items) + rest) == Done(items, rest)
    decreases t, 3, |items|
  {
    if items == [] {
      assert EncodeItems(t, items) + rest == rest;
    } else {
      Assoc(EncodeValue(t, items[0]), EncodeItems(t, items[1..]), rest);
      ValueRoundTrip(t, items[0], EncodeItems(t, items[1..]) + rest);
      ItemsRoundTrip(t, items[1..], rest);
      assert [items[0]] + items[1..] == items;
    }
  }

  lemma {:induction false} FieldsRoundTrip(ts: seq<Type>, vs: seq<Value>, rest: seq<byte>)
    requires WellFormedFields(ts, vs)
    ensures TakeFields(ts, EncodeFields(ts, vs) + rest) == Done(vs, rest)
    decreases ts, 0
  {
    if vs == [] {
      assert EncodeFields(ts, vs) + rest == rest;
    } else {
      Assoc(EncodeValue(ts[0], vs[0]), EncodeFields(ts[1..], vs[1..]), rest);
      ValueRoundTrip(ts[0], vs[0], EncodeFields(ts[1..], vs[1..]) + rest);
      FieldsRoundTrip(ts[1..], vs[1..], rest);
      assert [vs[0]] + vs[1..] == vs;
    }
  }

  // --------------------------------------------------------------- arguments

  datatype Argument = Argument(name: CString, typ: Type, data: Value)

  predicate WellFormedArgument(a: Argument) {
    WellFormedString(a.name) && WellFormedType(a.typ) && WellFormedValue(a.typ, a.data)
  }

  predicate WellFormedArguments(args: seq<Argument>) {
    |args| <= INT_MAX && forall i | 0 <= i < |args| :: WellFormedArgument(args[i])
  }

  function EncodeArgument(a: Argument): (bs: seq<byte>)
    requires WellFormedArgument(a)
  {
    EncodeString(a.name) + (EncodeType(a.typ) + EncodeValue(a.typ, a.data))
  }

  function TakeArgument(bs: seq<byte>): Parse<Argument> {
    var (name, bs1) :- TakeString(bs);
    var (typ, bs2) :- TakeType(bs1);
    var (data, bs3) :- TakeValue(typ, bs2);
    Done(Argument(name, typ, data), bs3)
  }

  lemma ArgumentRoundTrip(a: Argument, rest: seq<byte>)
    requires WellFormedArgument(a)
    ensures TakeArgument(EncodeArgument(a) + rest) == Done(a, rest)
  {
    var (n, t, d) := (EncodeString(a.name), EncodeType(a.typ), EncodeValue(a.typ, a.data));
    Assoc(n, t + d, rest);
    Assoc(t, d, rest);
    StringRoundTrip(a.name, t + (d + rest));
    TypeRoundTrip(a.typ, d + rest);
    ValueRoundTrip(a.typ, a.data, rest);
  }

  function EncodeEach(args: seq<Argument>): (bs: seq<byte>)
    requires forall i | 0 <= i < |args| :: WellFormedArgument(args[i])
  {
    if args == [] then [] else EncodeArgument(args[0]) + EncodeEach(args[1..])
  }

  function TakeEach(n: nat, bs: seq<byte>): (r: Parse<seq<Argument>>)
    ensures r.Done? ==> |r.value| == n
  {
    if n == 0 then Done([], bs)
    else
      var (a, bs1) :- TakeArgument(bs);
      var (as_, bs2) :- TakeEach(n - 1, bs1);
      Done([a] + as_, bs2)
  }

  lemma {:induction false} EachRoundTrip(args: seq<Argument>, rest: seq<byte>)
    requires forall i | 0 <= i < |args| :: WellFormedArgument(args[i])
    ensures TakeEach(|args|, EncodeEach(args) + rest) == Done(args, rest)
  {
    if args == [] {
      assert EncodeEach(args) + rest == rest;
    } else {
      var tail := EncodeEach(args[1..]) + rest;
      Assoc(EncodeArgument(args[0]), EncodeEach(args[1..]), rest);
      ArgumentRoundTrip(args[0], tail);
      hide WellFormedArgument, TakeArgument, EncodeArgument, TakeEach;
      EachRoundTrip(args[1..], rest);
      TakeEachStep(|args|, EncodeArgument(args[0]) + tail, args[0], tail, args[1..], rest);
      assert [args[0]] + args[1..] == args;
    }
  }

  lemma TakeEachStep(n: nat, bs: seq<byte>, a: Argument, bs1: seq<byte>, args: seq<Argument>, bs2: seq<byte>)
    requires n > 0 && TakeArgument(bs) == Done(a, bs1) && TakeEach(n - 1, bs1) == Done(args, bs2)
    ensures TakeEach(n, bs) == Done([a] + args, bs2)
  {
  }

  function EncodeArguments(args: seq<Argument>): (bs: seq<byte>)
    requires WellFormedArguments(args)
  {
    EncodeInt32(|args|) + EncodeEach(args)
  }

  /** A negative argument count is refused. */
  function TakeArguments(bs: seq<byte>): Parse<seq<Argument>> {
    var (n, bs1) :- TakeInt32(bs);
    if n < 0 then Fail else TakeEach(n, bs1)
  }

  lemma ArgumentsRoundTrip(args: seq<Argument>, rest: seq<byte>)
    requires WellFormedArguments(args)
    ensures TakeArguments(EncodeArguments(args) + rest) == Done(args, rest)
  {
    Assoc(EncodeInt32(|args|), EncodeEach(args), rest);
    TakeInt32RoundTrip(|args|, EncodeEach(args) + rest);
    EachRoundTrip(args, rest);
  }

  // ----------------------------------------------------------------- results

  datatype Column = Column(typ: Type, name: CString)

  predicate WellFormedColumn(c: Column) {
    WellFormedType(c.typ) && WellFormedString(c.name)
  }

  function ColumnTypes(cols: seq<Column>): (ts: seq<Type>)
    ensures |ts| == |cols|
  {
    seq(|cols|, i requires 0 <= i < |cols| => cols[i].typ)
  }

  function EncodeColumn(c: Column): (bs: seq<byte>)
    requires WellFormedColumn(c)
  {
    EncodeType(c.typ) + EncodeString(c.name)
  }

  function TakeColumn(bs: seq<byte>): Parse<Column> {
    var (typ, bs1) :- TakeType(bs);
    var (name, bs2) :- TakeString(bs1);
    Done(Column(typ, name), bs2)
  }

  lemma ColumnRoundTrip(c: Column, rest: seq<byte>)
    requires WellFormedColumn(c)
    ensures TakeColumn(EncodeColumn(c) + rest) == Done(c, rest)
  {
    Assoc(EncodeType(c.typ), EncodeString(c.name), rest);
    TypeRoundTrip(c.typ, EncodeString(c.name) + rest);
    StringRoundTrip(c.name, rest);
  }

  function EncodeColumns(cols: seq<Column>): (bs: seq<byte>)
    requires forall i | 0 <= i < |cols| :: WellFormedColumn(cols[i])
  {
    if cols == [] then [] else EncodeColumn(cols[0]) + EncodeColumns(cols[1..])
  }

  function TakeColumns(n: nat, bs: seq<byte>): (r: Parse<seq<Column>>)
    ensures r.Done? ==> |r.value| == n
  {
    if n == 0 then Done([], bs)
    else
      var (c, bs1) :- TakeColumn(bs);
      var (cols, bs2) :- TakeColumns(n - 1, bs1);
      Done([c] + cols, bs2)
  }

  lemma {:induction false} ColumnsRoundTrip(cols: seq<Column>, rest: seq<byte>)
    requires forall i | 0 <= i < |cols| :: WellFormedColumn(cols[i])
    ensures TakeColumns(|cols|, EncodeColumns(cols) + rest) == Done(cols, rest)
  {
    if cols == [] {
      assert EncodeColumns(cols) + rest == rest;
    } else {
      hide EncodeColumn, TakeColumn, WellFormedColumn, TakeColumns;
      var tail := EncodeColumns(cols[1..]) + rest;
      Assoc(EncodeColumn(cols[0]), EncodeColumns(cols[1..]), rest);
      ColumnRoundTrip(cols[0], tail);
      ColumnsRoundTrip(cols[1..], rest);
      TakeColumnsStep(|cols|, EncodeColumn(cols[0]) + tail, cols[0], tail, cols[1..], rest);
      assert [cols[0]] + cols[1..] == cols;
    }
  }

  lemma TakeColumnsStep(n: nat, bs: seq<byte>, c: Column, bs1: seq<byte>, cols: seq<Column>, bs2: seq<byte>)
    requires n > 0 && TakeColumn(bs) == Done(c, bs1) && TakeColumns(n - 1, bs1) == Done(cols, bs2)
    ensures TakeColumns(n, bs) == Done([c] + cols, bs2)
  {
  }

  predicate WellFormedRows(ts: seq<Type>, rows: seq<seq<Value>>) {
    forall i | 0 <= i < |rows| :: WellFormedFields(ts, rows[i])
  }

  function EncodeRows(ts: seq<Type>, rows: seq<seq<Value>>): (bs: seq<byte>)
    requires WellFormedRows(ts, rows)
  {
    if rows == [] then [] else EncodeFields(ts, rows[0]) + EncodeRows(ts, rows[1..])
  }

  function TakeRows(ts: seq<Type>, n: nat, bs: seq<byte>): (r: Parse<seq<seq<Value>>>)
    ensures r.Done? ==> |r.value| == n
    decreases n
  {
    if n == 0 then Done([], bs)
    else
      var (row, bs1) :- TakeFields(ts, bs);
      var (rows, bs2) :- TakeRows(ts, n - 1, bs1);
      Done([row] + rows, bs2)
  }

  lemma {:induction false} RowsRoundTrip(ts: seq<Type>, rows: seq<seq<Value>>, rest: seq<byte>)
    requires WellFormedRows(ts, rows)
    ensures TakeRows(ts, |rows|, EncodeRows(ts, rows) + rest) == Done(rows, rest)
    decreases |rows|
  {
    if rows == [] {
      assert EncodeRows(ts, rows) + rest == rest;
    } else {
      Assoc(EncodeFields(ts, rows[0]), EncodeRows(ts, rows[1..]), rest);
      FieldsRoundTrip(ts, rows[0], EncodeRows(ts, rows[1..]) + rest);
      RowsRoundTrip(ts, rows[1..], rest);
      assert [rows[0]] + rows[1..] == rows;
    }
  }

  // ---------------------------------------------------------------- messages

  datatype Error = Error(message: CString, stacktrace: CString)

  datatype Message =
    | Ping
    | CallReq(name: CString, src: CString, serverenc: CString, logLevel: int, objectId: nat,
              hasChanged: int, retType: Type, retSet: int, args: seq<Argument>)
    | Result(rows: nat, cols: seq<Column>, data: seq<seq<Value>>)
    | Exception(error: Error)
    | Log(level: int, text: CString)
    | Quote(quoteType: int, text: CString)
    | QuoteResult(quoteType: int, text: CString)
    | Statement(limit: int, statement: CString)
    | Prepare(args: seq<Argument>, statement: CString)
    | Unprepare(pplan: int)
    | Execute(args: seq<Argument>, limit: int, pplan: int)
    | Raw(bytes: seq<byte>)
    | Subtransaction(action: byte, exception: byte)
    | SubtransactionResult(result: int)

  const SQL_STATEMENT: int := 1
  const SQL_PREPARE: int := 5
  const SQL_PEXECUTE: int := 6
  const SQL_UNPREPARE: int := 7

  /** The first byte of a message; the four SQL messages share one. */
  function Tag(m: Message): byte {
    match m
    case Ping => 'P' as byte
    case CallReq(_, _, _, _, _, _, _, _, _) => 'C' as byte
    case Result(_, _, _) => 'R' as byte
    case Exception(_) => 'E' as byte
    case Log(_, _) => 'L' as byte
    case Quote(_, _) => 'Q' as byte
    case QuoteResult(_, _) => 'O' as byte
    case Statement(_, _) => 'S' as byte
    case Prepare(_, _) => 'S' as byte
    case Unprepare(_) => 'S' as byte
    case Execute(_, _, _) => 'S' as byte
    case Raw(_) => 'W' as byte
    case Subtransaction(_, _) => 'N' as byte
    case SubtransactionResult(_) => 'Z' as byte
  }

  predicate IsInt64(x: int) { FitsInt(x, 8) }

  function EncodeInt64(x: int): (bs: seq<byte>)
    requires IsInt64(x)
  {
    EncodeInt(x, 8)
  }

  function TakeInt64(bs: seq<byte>): (r: Parse<int>) { TakeInt(bs, 8) }

  predicate IsUint32(x: int) { 0 <= x < 0x1_0000_0000 }

  function EncodeUint32(x: nat): (bs: seq<byte>)
    requires IsUint32(x)
    ensures |bs| == 4
  {
    EncodeNat(x, 4)
  }

  function TakeUint32(bs: seq<byte>): (r: Parse<nat>)
    ensures r.Done? ==> IsUint32(r.value)
  {
    Pow256Values();
    TakeNat(bs, 4)
  }

  lemma TakeUint32RoundTrip(x: nat, rest: seq<byte>)
    requires IsUint32(x)
    ensures TakeUint32(EncodeUint32(x) + rest) == Done(x, rest)
  {
    Pow256Values();
    TakeNatRoundTrip(x, 4, rest);
  }

  predicate WellFormedError(e: Error) {
    WellFormedString(e.message) && WellFormedString(e.stacktrace)
  }

  predicate WellFormedCall(m: Message) requires m.CallReq? {
    && WellFormedString(m.name) && WellFormedString(m.src) && WellFormedString(m.serverenc)
    && IsInt32(m.logLevel) && IsUint32(m.objectId) && IsInt32(m.hasChanged)
    && WellFormedType(m.retType) && IsInt32(m.retSet)
    && WellFormedArguments(m.args)
  }

  /** A statement without columns reports its row count and carries no data. */
  predicate WellFormedResult(m: Message) requires m.Result? {
    && IsUint32(m.rows) && |m.cols| < 0x1_0000_0000
    && (forall i | 0 <= i < |m.cols| :: WellFormedColumn(m.cols[i]))
    && |m.data| == (if m.cols == [] then 0 else m.rows)
    && WellFormedRows(ColumnTypes(m.cols), m.data)
  }

  predicate WellFormed(m: Message) {
    match m
    case Ping => true
    case CallReq(_, _, _, _, _, _, _, _, _) => WellFormedCall(m)
    case Result(_, _, _) => WellFormedResult(m)
    case Exception(e) => WellFormedError(e)
    case Log(level, text) => IsInt32(level) && WellFormedString(text)
    case Quote(q, text) => IsInt32(q) && WellFormedString(text)
    case QuoteResult(q, text) => IsInt32(q) && WellFormedString(text)
    case Statement(limit, s) => IsInt64(limit) && WellFormedString(s)
    case Prepare(args, s) => WellFormedArguments(args) && WellFormedString(s)
    case Unprepare(pplan) => IsInt64(pplan)
    case Execute(args, limit, pplan) => WellFormedArguments(args) && IsInt64(limit) && IsInt64(pplan)
    case Raw(bs) => |bs| <= INT_MAX
    case Subtransaction(_, _) => true
    case SubtransactionResult(r) => IsInt16(r)
  }

  // The bodies that have more than two parts, each with its receiver and round trip.

  function EncodeCall(m: Message): (bs: seq<byte>)
    requires m.CallReq? && WellFormedCall(m)
  {
    EncodeString(m.name) + (EncodeString(m.src) + (EncodeString(m.serverenc) + EncodeCallTail(m)))
  }

  function EncodeCallTail(m: Message): (bs: seq<byte>)
    requires m.CallReq? && WellFormedCall(m)
  {
    EncodeInt32(m.logLevel) + (EncodeUint32(m.objectId) + (EncodeInt32(m.hasChanged) + EncodeSignature(m)))
  }

  function EncodeSignature(m: Message): (bs: seq<byte>)
    requires m.CallReq? && WellFormedCall(m)
  {
    EncodeType(m.retType) + (EncodeInt32(m.retSet) + EncodeArguments(m.args))
  }

  datatype Signature = Signature(retType: Type, retSet: int, args: seq<Argument>)
  datatype CallTail = CallTail(logLevel: int, objectId: nat, hasChanged: int, sig: Signature)

  function TakeSignature(bs: seq<byte>): Parse<Signature> {
    var (retType, bs1) :- TakeType(bs);
    var (retSet, bs2) :- TakeInt32(bs1);
    var (args, bs3) :- TakeArguments(bs2);
    Done(Signature(retType, retSet, args), bs3)
  }

  function TakeCallTail(bs: seq<byte>): Parse<CallTail> {
    var (logLevel, bs1) :- TakeInt32(bs);
    var (objectId, bs2) :- TakeUint32(bs1);
    var (hasChanged, bs3) :- TakeInt32(bs2);
    var (sig, bs4) :- TakeSignature(bs3);
    Done(CallTail(logLevel, objectId, hasChanged, sig), bs4)
  }

  function TakeCall(bs: seq<byte>): Parse<Message> {
    var (name, bs1) :- TakeString(bs);
    var (src, bs2) :- TakeString(bs1);
    var (serverenc, bs3) :- TakeString(bs2);
    var (t, bs4) :- TakeCallTail(bs3);
    Done(CallReq(name, src, serverenc, t.logLevel, t.objectId, t.hasChanged,
                 t.sig.retType, t.sig.retSet, t.sig.args), bs4)
  }

  lemma SignatureRoundTrip(m: Message, rest: seq<byte>)
    requires m.CallReq? && WellFormedCall(m)
    ensures TakeSignature(EncodeSignature(m) + rest) == Done(Signature(m.retType, m.retSet, m.args), rest)
  {
    var (t, r, a) := (EncodeType(m.retType), EncodeInt32(m.retSet), EncodeArguments(m.args));
    Assoc(t, r + a, rest);
    Assoc(r, a, rest);
    TypeRoundTrip(m.retType, r + (a + rest));
    TakeInt32RoundTrip(m.retSet, a + rest);
    ArgumentsRoundTrip(m.args, rest);
  }

  lemma CallTailRoundTrip(m: Message, rest: seq<byte>)
    requires m.CallReq? && WellFormedCall(m)
    ensures TakeCallTail(EncodeCallTail(m) + rest)
            == Done(CallTail(m.logLevel, m.objectId, m.hasChanged, Signature(m.retType, m.retSet, m.args)), rest)
  {
    var (l, o, h, s) :=
      (EncodeInt32(m.logLevel), EncodeUint32(m.objectId), EncodeInt32(m.hasChanged), EncodeSignature(m));
    Assoc(l, o + (h + s), rest);
    Assoc(o, h + s, rest);
    Assoc(h, s, rest);
    TakeInt32RoundTrip(m.logLevel, o + (h + (s + rest)));
    TakeUint32RoundTrip(m.objectId, h + (s + rest));
    TakeInt32RoundTrip(m.hasChanged, s + rest);
    SignatureRoundTrip(m, rest);
  }

  lemma CallRoundTrip(m: Message, rest: seq<byte>)
    requires m.CallReq? && WellFormedCall(m)
    ensures TakeCall(EncodeCall(m) + rest) == Done(m, rest)
  {
    var (n, s, e, t) :=
      (EncodeString(m.name), EncodeString(m.src), EncodeString(m.serverenc), EncodeCallTail(m));
    Assoc(n, s + (e + t), rest);
    Assoc(s, e + t, rest);
    Assoc(e, t, rest);
    StringRoundTrip(m.name, s + (e + (t + rest)));
    StringRoundTrip(m.src, e + (t + rest));
    StringRoundTrip(m.serverenc, t + rest);
    CallTailRoundTrip(m, rest);
  }

  function EncodeError(e: Error): (bs: seq<byte>)
    requires WellFormedError(e)
  {
    EncodeString(e.message) + EncodeString(e.stacktrace)
  }

  function TakeError(bs: seq<byte>): Parse<Error> {
    var (message, bs1) :- TakeString(bs);
    var (stacktrace, bs2) :- TakeString(bs1);
    Done(Error(message, stacktrace), bs2)
  }

  lemma ErrorRoundTrip(e: Error, rest: seq<byte>)
    requires WellFormedError(e)
    ensures TakeError(EncodeError(e) + rest) == Done(e, rest)
  {
    Assoc(EncodeString(e.message), EncodeString(e.stacktrace), rest);
    StringRoundTrip(e.message, EncodeString(e.stacktrace) + rest);
    StringRoundTrip(e.stacktrace, rest);
  }

  /** The end of a result: 'N', or a whole exception message raised while the rows went out. */
  function EncodeTrailer(pending: Option<Error>): (bs: seq<byte>)
    requires pending.Some? ==> WellFormedError(pending.value)
  {
    if pending.None? then ['N' as byte] else ['E' as byte] + EncodeError(pending.value)
  }

  function TakeTrailer(bs: seq<byte>): Parse<Option<Error>> {
    var (exc, bs1) :- TakeByte(bs);
    if exc == 'E' as byte then
      var (e, bs2) :- TakeError(bs1);
      Done(Some(e), bs2)
    else Done(None, bs1)
  }

  lemma TrailerRoundTrip(pending: Option<Error>, rest: seq<byte>)
    requires pending.Some? ==> WellFormedError(pending.value)
    ensures TakeTrailer(EncodeTrailer(pending) + rest) == Done(pending, rest)
  {
    if pending.None? {
      TakeByteRoundTrip('N' as byte, rest);
    } else {
      Assoc(['E' as byte], EncodeError(pending.value), rest);
      TakeByteRoundTrip('E' as byte, EncodeError(pending.value) + rest);
      ErrorRoundTrip(pending.value, rest);
    }
  }

  function EncodeTable(m: Message): (bs: seq<byte>)
    requires m.Result? && WellFormedResult(m)
  {
    EncodeUint32(m.rows)
    + (EncodeUint32(|m.cols|) + (EncodeColumns(m.cols) + EncodeRows(ColumnTypes(m.cols), m.data)))
  }

  function TakeTable(bs: seq<byte>): (r: Parse<Message>)
    ensures r.Done? ==> r.value.Result?
  {
    var (rows, bs1) :- TakeUint32(bs);
    var (ncols, bs2) :- TakeUint32(bs1);
    var (cols, bs3) :- TakeColumns(ncols, bs2);
    var (data, bs4) :- TakeRows(ColumnTypes(cols), if cols == [] then 0 else rows, bs3);
    Done(Result(rows, cols, data), bs4)
  }

  lemma TableRoundTrip(m: Message, rest: seq<byte>)
    requires m.Result? && WellFormedResult(m)
    ensures TakeTable(EncodeTable(m) + rest) == Done(m, rest)
  {
    var (r, c, cs, ds) :=
      (EncodeUint32(m.rows), EncodeUint32(|m.cols|), EncodeColumns(m.cols), EncodeRows(ColumnTypes(m.cols), m.data));
    Assoc(r, c + (cs + ds), rest);
    Assoc(c, cs + ds, rest);
    Assoc(cs, ds, rest);
    TakeUint32RoundTrip(m.rows, c + (cs + (ds + rest)));
    TakeUint32RoundTrip(|m.cols|, cs + (ds + rest));
    ColumnsRoundTrip(m.cols, ds + rest);
    RowsRoundTrip(ColumnTypes(m.cols), m.data, rest);
  }

  /** A result whose trailer carries an error is delivered as that error. */
  function TakeResult(bs: seq<byte>): Parse<Message> {
    var (m, bs1) :- TakeTable(bs);
    var (pending, bs2) :- TakeTrailer(bs1);
    Done(if pending.Some? then Exception(pending.value) else m, bs2)
  }

  lemma ResultRoundTrip(m: Message, pending: Option<Error>, rest: seq<byte>)
    requires m.Result? && WellFormedResult(m)
    requires pending.Some? ==> WellFormedError(pending.value)
    ensures TakeResult(EncodeTable(m) + EncodeTrailer(pending) + rest)
            == Done(if pending.Some? then Exception(pending.value) else m, rest)
  {
    Assoc(EncodeTable(m), EncodeTrailer(pending), rest);
    TableRoundTrip(m, EncodeTrailer(pending) + rest);
    TrailerRoundTrip(pending, rest);
  }

  /** A number and a string: the bodies of log, quote and quote-result messages. */
  function EncodeNote(n: int, text: CString): (bs: seq<byte>)
    requires IsInt32(n) && WellFormedString(text)
  {
    EncodeInt32(n) + EncodeString(text)
  }

  function TakeNote(bs: seq<byte>): Parse<(int, CString)> {
    var (n, bs1) :- TakeInt32(bs);
    var (text, bs2) :- TakeString(bs1);
    Done((n, text), bs2)
  }

  lemma NoteRoundTrip(n: int, text: CString, rest: seq<byte>)
    requires IsInt32(n) && WellFormedString(text)
    ensures TakeNote(EncodeNote(n, text) + rest) == Done((n, text), rest)
  {
    Assoc(EncodeInt32(n), EncodeString(text), rest);
    TakeInt32RoundTrip(n, EncodeString(text) + rest);
    StringRoundTrip(text, rest);
  }

  predicate IsSql(m: Message) { m.Statement? || m.Prepare? || m.Unprepare? || m.Execute? }

  function SqlType(m: Message): (n: int)
    requires IsSql(m)
    ensures IsInt32(n)
  {
    if m.Statement? then SQL_STATEMENT
    else if m.Prepare? then SQL_PREPARE
    else if m.Unprepare? then SQL_UNPREPARE
    else SQL_PEXECUTE
  }

  function EncodeSqlBody(m: Message): (bs: seq<byte>)
    requires IsSql(m) && WellFormed(m)
  {
    match m
    case Statement(limit, s) => EncodeInt64(limit) + EncodeString(s)
    case Prepare(args, s) => EncodeArguments(args) + EncodeString(s)
    case Unprepare(pplan) => EncodeInt64(pplan)
    case Execute(args, limit, pplan) => EncodeArguments(args) + (EncodeInt64(limit) + EncodeInt64(pplan))
  }

  function TakeSqlBody(sqlType: int, bs: seq<byte>): Parse<Message> {
    if sqlType == SQL_STATEMENT then
      var (limit, bs1) :- TakeInt64(bs);
      var (s, bs2) :- TakeString(bs1);
      Done(Statement(limit, s), bs2)
    else if sqlType == SQL_PREPARE then
      var (args, bs1) :- TakeArguments(bs);
      var (s, bs2) :- TakeString(bs1);
      Done(Prepare(args, s), bs2)
    else if sqlType == SQL_UNPREPARE then
      var (pplan, bs1) :- TakeInt64(bs);
      Done(Unprepare(pplan), bs1)
    else if sqlType == SQL_PEXECUTE then
      var (args, bs1) :- TakeArguments(bs);
      var (limit, bs2) :- TakeInt64(bs1);
      var (pplan, bs3) :- TakeInt64(bs2);
      Done(Execute(args, limit, pplan), bs3)
    else Fail
  }

  lemma TakeInt64RoundTrip(x: int, rest: seq<byte>)
    requires IsInt64(x)
    ensures TakeInt64(EncodeInt64(x) + rest) == Done(x, rest)
  {
    TakeIntRoundTrip(x, 8, rest);
  }

  lemma SqlBodyRoundTrip(m: Message, rest: seq<byte>)
    requires IsSql(m) && WellFormed(m)
    ensures TakeSqlBody(SqlType(m), EncodeSqlBody(m) + rest) == Done(m, rest)
  {
    hide TakeInt64, EncodeInt64, TakeString, EncodeString, TakeArguments, EncodeArguments, WellFormedArguments;
    match m
    case Statement(limit, s) =>
      Assoc(EncodeInt64(limit), EncodeString(s), rest);
      TakeInt64RoundTrip(limit, EncodeString(s) + rest);
      StringRoundTrip(s, rest);
    case Prepare(args, s) =>
      Assoc(EncodeArguments(args), EncodeString(s), rest);
      ArgumentsRoundTrip(args, EncodeString(s) + rest);
      StringRoundTrip(s, rest);
    case Unprepare(pplan) =>
      TakeInt64RoundTrip(pplan, rest);
    case Execute(_, _, _) => ExecuteRoundTrip(m, rest);
  }

  lemma ExecuteRoundTrip(m: Message, rest: seq<byte>)
    requires m.Execute? && WellFormed(m)
    ensures TakeSqlBody(SQL_PEXECUTE, EncodeSqlBody(m) + rest) == Done(m, rest)
  {
    hide TakeInt64, EncodeInt64, TakeString, EncodeString, TakeArguments, EncodeArguments, WellFormedArguments;
    var (args, limit, pplan) := (EncodeArguments(m.args), EncodeInt64(m.limit), EncodeInt64(m.pplan));
    Assoc(args, limit + pplan, rest);
    Assoc(limit, pplan, rest);
    ArgumentsRoundTrip(m.args, limit + (pplan + rest));
    TakeInt64RoundTrip(m.limit, pplan + rest);
    TakeInt64RoundTrip(m.pplan, rest);
  }

  /** Every message but its tag.  `pending` is the error that the sender's callback reports
      once the rows of a result are out; no other message looks at it. */
  function EncodeMessageBody(m: Message, pending: Option<Error>, version: seq<byte>): (bs: seq<byte>)
    requires WellFormed(m) && WellFormedString(Some(version))
    requires pending.Some? ==> WellFormedError(pending.value)
  {
    match m
    case Ping => EncodeString(Some(version))
    case CallReq(_, _, _, _, _, _, _, _, _) => EncodeCall(m)
    case Result(_, _, _) => EncodeTable(m) + EncodeTrailer(pending)
    case Exception(e) => EncodeError(e)
    case Log(level, text) => EncodeNote(level, text)
    case Quote(q, text) => EncodeNote(q, text)
    case QuoteResult(q, text) => EncodeNote(q, text)
    case Raw(bs) => EncodeInt32(|bs|) + bs
    case Subtransaction(action, exception) => [action, exception]
    case SubtransactionResult(r) => EncodeInt16(r)
    case _ => EncodeInt32(SqlType(m)) + EncodeSqlBody(m)
  }

  function Encode(m: Message, pending: Option<Error>, version: seq<byte>): (bs: seq<byte>)
    requires WellFormed(m) && WellFormedString(Some(version))
    requires pending.Some? ==> WellFormedError(pending.value)
  {
    [Tag(m)] + EncodeMessageBody(m, pending, version)
  }

  /** The peer must announce at least our version; a longer string that starts with it is accepted. */
  function TakePing(version: seq<byte>, bs: seq<byte>): Parse<Message> {
    var (v, bs1) :- TakeString(bs);
    if v.Some? && version <= v.value then Done(Ping, bs1) else Fail
  }

  function TakeSql(bs: seq<byte>): Parse<Message> {
    var (sqlType, bs1) :- TakeInt32(bs);
    TakeSqlBody(sqlType, bs1)
  }

  function TakePair(bs: seq<byte>): Parse<Message> {
    var (action, bs1) :- TakeByte(bs);
    var (exception, bs2) :- TakeByte(bs1);
    Done(Subtransaction(action, exception), bs2)
  }

  function TakeMessageBody(tag: byte, version: seq<byte>, bs: seq<byte>): Parse<Message> {
    if tag == 'P' as byte then TakePing(version, bs)
    else if tag == 'C' as byte then TakeCall(bs)
    else if tag == 'R' as byte then TakeResult(bs)
    else if tag == 'E' as byte then var (e, r) :- TakeError(bs); Done(Exception(e), r)
    else if tag == 'L' as byte then var (n, r) :- TakeNote(bs); Done(Log(n.0, n.1), r)
    else if tag == 'Q' as byte then var (n, r) :- TakeNote(bs); Done(Quote(n.0, n.1), r)
    else if tag == 'O' as byte then var (n, r) :- TakeNote(bs); Done(QuoteResult(n.0, n.1), r)
    else if tag == 'S' as byte then TakeSql(bs)
    else if tag == 'W' as byte then var (b, r) :- TakeBlob(bs); Done(Raw(b), r)
    else if tag == 'N' as byte then TakePair(bs)
    else if tag == 'Z' as byte then var (n, r) :- TakeInt16(bs); Done(SubtransactionResult(n), r)
    else Fail
  }

  /** Only messages in the receiver's mask are decoded; all others are errors. */
  function Decode(mask: set<byte>, version: seq<byte>, bs: seq<byte>): Parse<Message> {
    var (tag, bs1) :- TakeByte(bs);
    if tag in mask then TakeMessageBody(tag, version, bs1) else Fail
  }

  /** What the receiver sees of a message. */
  function Delivered(m: Message, pending: Option<Error>): Message {
    if m.Result? && pending.Some? then Exception(pending.value) else m
  }

  lemma BlobRoundTrip(b: seq<byte>, rest: seq<byte>)
    requires |b| <= INT_MAX
    ensures TakeBlob(EncodeInt32(|b|) + b + rest) == Done(b, rest)
  {
    Assoc(EncodeInt32(|b|), b, rest);
    TakeInt32RoundTrip(|b|, b + rest);
    TakeBytesRoundTrip(b, rest);
  }

  /** A ping is accepted exactly from a peer whose version starts with ours. */
  lemma PingRoundTrip(mine: seq<byte>, version: seq<byte>, rest: seq<byte>)
    requires WellFormedString(Some(version))
    ensures TakePing(mine, EncodeString(Some(version)) + rest) == if mine <= version then Done(Ping, rest) else Fail
  {
    hide TakeString, EncodeString;
    StringRoundTrip(Some(version), rest);
  }

  lemma PairRoundTrip(action: byte, exception: byte, rest: seq<byte>)
    ensures TakePair([action, exception] + rest) == Done(Subtransaction(action, exception), rest)
  {
    assert [action, exception] + rest == [action] + ([exception] + rest);
    TakeByteRoundTrip(action, [exception] + rest);
    TakeByteRoundTrip(exception, rest);
  }

  lemma SqlRoundTrip(m: Message, rest: seq<byte>)
    requires WellFormed(m) && IsSql(m)
    ensures TakeSql(EncodeInt32(SqlType(m)) + EncodeSqlBody(m) + rest) == Done(m, rest)
  {
    hide TakeInt32, EncodeInt32, TakeSqlBody, EncodeSqlBody, WellFormed;
    Assoc(EncodeInt32(SqlType(m)), EncodeSqlBody(m), rest);
    TakeInt32RoundTrip(SqlType(m), EncodeSqlBody(m) + rest);
    SqlBodyRoundTrip(m, rest);
  }

  /** The receiver with this version takes the message from a sender with that version. */
  predicate Compatible(m: Message, mine: seq<byte>, version: seq<byte>) {
    m.Ping? ==> mine <= version
  }

  lemma MessageBodyRoundTrip(m: Message, pending: Option<Error>, mine: seq<byte>, version: seq<byte>, rest: seq<byte>)
    requires WellFormed(m) && WellFormedString(Some(version))
    requires pending.Some? ==> WellFormedError(pending.value)
    ensures TakeMessageBody(Tag(m), mine, EncodeMessageBody(m, pending, version) + rest)
            == if Compatible(m, mine, version) then Done(Delivered(m, pending), rest) else Fail
  {
    hide TakeString, EncodeString, TakeCall, EncodeCall, TakeResult, TakeNote, EncodeNote, TakeSqlBody,
         EncodeSqlBody, TakeBlob, TakeInt16, EncodeInt16, TakeError, EncodeError, TakeInt32, EncodeInt32,
         EncodeTable, EncodeTrailer, WellFormedCall, WellFormedResult, WellFormedArguments, TakePing, TakePair, TakeSql;
    match m
    case Ping => PingRoundTrip(mine, version, rest);
    case CallReq(_, _, _, _, _, _, _, _, _) => CallRoundTrip(m, rest);
    case Result(_, _, _) => ResultRoundTrip(m, pending, rest);
    case Exception(e) => ErrorRoundTrip(e, rest);
    case Log(n, text) => NoteRoundTrip(n, text, rest);
    case Quote(n, text) => NoteRoundTrip(n, text, rest);
    case QuoteResult(n, text) => NoteRoundTrip(n, text, rest);
    case Raw(b) => BlobRoundTrip(b, rest);
    case Subtransaction(action, exception) => PairRoundTrip(action, exception, rest);
    case SubtransactionResult(r) => TakeInt16RoundTrip(r, rest);
    case _ => SqlRoundTrip(m, rest);
  }

  /** The receiver is the exact inverse of the sender, whatever follows on the stream: a message
      in the mask comes out as it went in, a result with a pending error as that error; a message
      outside the mask is refused, and so is a ping from a peer whose version does not start with ours. */
  lemma RoundTrip(m: Message, pending: Option<Error>, mask: set<byte>, mine: seq<byte>, version: seq<byte>,
                  rest: seq<byte>)
    requires WellFormed(m) && WellFormedString(Some(version))
    requires pending.Some? ==> WellFormedError(pending.value)
    ensures Decode(mask, mine, Encode(m, pending, version) + rest)
            == if Tag(m) in mask && Compatible(m, mine, version) then Done(Delivered(m, pending), rest) else Fail
  {
    Assoc([Tag(m)], EncodeMessageBody(m, pending, version), rest);
    TakeByteRoundTrip(Tag(m), EncodeMessageBody(m, pending, version) + rest);
    MessageBodyRoundTrip(m, pending, mine, version, rest);
  }

  // ---------------------------------------------------------------- refusals

  /** A negative length is refused, but that of the null string. */
  lemma NegativeLengthsRefused(n: int, rest: seq<byte>)
    requires IsInt32(n) && n < 0
    ensures TakeBlob(EncodeInt32(n) + rest) == Fail && TakeArguments(EncodeInt32(n) + rest) == Fail
    ensures TakeString(EncodeInt32(n) + rest) == if n == -1 then Done(None, rest) else Fail
  {
    TakeInt32RoundTrip(n, rest);
    hide TakeInt32, EncodeInt32, TakeEach;
  }

  lemma {:induction false} NatOfBytes(bs: seq<byte>)
    ensures EncodeNat(DecodeNat(bs), |bs|) == bs
  {
    if bs != [] {
      NatOfBytes(bs[1..]);
      var x := DecodeNat(bs[1..]);
      assert (bs[0] as int + 256 * x) / 256 == x && (bs[0] as int + 256 * x) % 256 == bs[0] as int;
    }
  }

  /** What is accepted as a number is the encoding of that number. */
  lemma IntAccepted(bs: seq<byte>)
    requires TakeInt32(bs).Done?
    ensures bs == EncodeInt32(TakeInt32(bs).value) + TakeInt32(bs).rest
  {
    Pow256Values();
    NatOfBytes(bs[..4]);
    assert bs == bs[..4] + bs[4..];
  }

  /** What is accepted as a string is the encoding of that string, if it is one that a C string can hold. */
  lemma StringAccepted(bs: seq<byte>)
    requires TakeString(bs).Done? && WellFormedString(TakeString(bs).value)
    ensures bs == EncodeString(TakeString(bs).value) + TakeString(bs).rest
  {
    IntAccepted(bs);
    var (n, r) := (TakeInt32(bs).value, TakeInt32(bs).rest);
    hide TakeInt32, EncodeInt32;
    if n >= 0 {
      assert r == r[..n] + r[n..];
      Assoc(EncodeInt32(n), r[..n], r[n..]);
    }
  }

  /** The tag alone decides what kind of message is read, but for a result that carries an error; a tag
      outside the mask or unknown is refused. */
  lemma TagDecides(mask: set<byte>, mine: seq<byte>, bs: seq<byte>)
    requires Decode(mask, mine, bs).Done?
    ensures var m := Decode(mask, mine, bs).value;
            && bs != [] && bs[0] in mask
            && if bs[0] == 'R' as byte then m.Result? || m.Exception? else Tag(m) == bs[0]
  {
    hide TakeCall, TakeTable, TakeTrailer, TakeError, TakeNote, TakeString, TakeBlob, TakeInt16, TakeInt32, TakeByte,
         TakeInt64, TakeArguments;
    assert TakeByte(bs) == Done(bs[0], bs[1..]) by {
      TakeByteOf(bs);
    }
    if bs[0] == 'S' as byte {
      SqlTypeDecides(bs[1..]);
    } else if bs[0] == 'C' as byte {
      CallIsCall(bs[1..]);
    } else if bs[0] == 'R' as byte {
      TableIsResult(bs[1..]);
    }
  }

  lemma TakeByteOf(bs: seq<byte>)
    requires TakeByte(bs).Done?
    ensures bs != [] && TakeByte(bs) == Done(bs[0], bs[1..])
  {
  }

  lemma CallIsCall(bs: seq<byte>)
    ensures TakeCall(bs).Done? ==> TakeCall(bs).value.CallReq?
  {
  }

  lemma TableIsResult(bs: seq<byte>)
    ensures TakeTable(bs).Done? ==> TakeTable(bs).value.Result?
  {
  }

  /** So does the number of an SQL request; an unknown one is refused. */
  lemma SqlTypeDecides(bs: seq<byte>)
    requires TakeSql(bs).Done?
    ensures IsSql(TakeSql(bs).value) && TakeInt32(bs).Done? && TakeInt32(bs).value == SqlType(TakeSql(bs).value)
  {
    hide TakeString, TakeInt32, TakeInt64, TakeArguments;
  }

  // ----------------------------------------------------------------- framing

  function EncodeAll(ms: seq<Message>, version: seq<byte>): (bs: seq<byte>)
    requires WellFormedString(Some(version)) && forall i | 0 <= i < |ms| :: WellFormed(ms[i])
  {
    if ms == [] then [] else Encode(ms[0], None, version) + EncodeAll(ms[1..], version)
  }

  function DecodeAll(n: nat, mask: set<byte>, version: seq<byte>, bs: seq<byte>): Parse<seq<Message>> {
    if n == 0 then Done([], bs)
    else
      var (m, bs1) :- Decode(mask, version, bs);
      var (ms, bs2) :- DecodeAll(n - 1, mask, version, bs1);
      Done([m] + ms, bs2)
  }

  /** Messages carry no frame length, yet a stream of them splits back into the same messages. */
  lemma {:induction false} StreamRoundTrip(ms: seq<Message>, mask: set<byte>, version: seq<byte>, rest: seq<byte>)
    requires WellFormedString(Some(version))
    requires forall i | 0 <= i < |ms| :: WellFormed(ms[i]) && Tag(ms[i]) in mask
    ensures DecodeAll(|ms|, mask, version, EncodeAll(ms, version) + rest) == Done(ms, rest)
  {
    hide Encode, Decode, WellFormed, Tag;
    if ms == [] {
      assert EncodeAll(ms, version) + rest == rest;
    } else {
      Assoc(Encode(ms[0], None, version), EncodeAll(ms[1..], version), rest);
      RoundTrip(ms[0], None, mask, version, version, EncodeAll(ms[1..], version) + rest);
      StreamRoundTrip(ms[1..], mask, version, rest);
      assert [ms[0]] + ms[1..] == ms;
    }
  }

  /** The encoding is prefix-free: two streams that agree start with the same message. */
  lemma PrefixFree(m: Message, m': Message, version: seq<byte>, rest: seq<byte>, rest': seq<byte>)
    requires WellFormedString(Some(version)) && WellFormed(m) && WellFormed(m')
    requires Encode(m, None, version) + rest == Encode(m', None, version) + rest'
    ensures m == m' && rest == rest'
  {
    RoundTrip(m, None, {Tag(m), Tag(m')}, version, version, rest);
    RoundTrip(m', None, {Tag(m), Tag(m')}, version, version, rest');
  }
}
