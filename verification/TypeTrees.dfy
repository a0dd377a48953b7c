/** Types and rows of the backend (src/plc_typeio.c): the type tree built from the catalog, its copy
    sent to the client, and the conversion of rows in both directions when columns were dropped. */
module TypeTrees {
  import opened Basics
  import opened ByteStream
  import opened Codec

  type Oid = nat

  const BOOLOID: Oid := 16
  const BYTEAOID: Oid := 17
  const INT8OID: Oid := 20
  const INT2OID: Oid := 21
  const INT4OID: Oid := 23
  const FLOAT4OID: Oid := 700
  const FLOAT8OID: Oid := 701
  const NUMERICOID: Oid := 1700
  const RECORDOID: Oid := 2249
  const MAX_ATTRIBUTES: nat := 1600

  datatype Attribute = Attribute(dropped: bool, oid: Oid, name: CString)

  /** A row of pg_type: atts is given for composite types. */
  datatype Entry = Entry(domain: bool, elem: Oid, arrayOut: bool, atts: Option<seq<Attribute>>, name: CString)

  type Catalog = map<Oid, Entry>

  predicate WellFormedAttributes(atts: seq<Attribute>) {
    |atts| <= MAX_ATTRIBUTES && forall k | 0 <= k < |atts| :: WellFormedString(atts[k].name)
  }

  predicate WellFormedCatalog(cat: Catalog) {
    forall o | o in cat ::
      WellFormedString(cat[o].name) && (cat[o].atts.Some? ==> WellFormedAttributes(cat[o].atts.value))
  }

  /** plcTypeInfo. Dropped columns keep their place but nothing is filled in but the name. */
  datatype Info = Info(kind: Kind, name: CString, dropped: bool, subs: seq<Info>)

  function ScalarKind(oid: Oid): Kind {
    if oid == BOOLOID then Int1
    else if oid == INT2OID then Int2
    else if oid == INT4OID then Int4
    else if oid == INT8OID then Int8
    else if oid == FLOAT4OID then Float4
    else if oid == FLOAT8OID || oid == NUMERICOID then Float8
    else if oid == BYTEAOID then Bytea
    else Text
  }

  /** How much nesting may still follow: an array only outside arrays, a row only outside rows. */
  function Budget(isArr: bool, isUdt: bool): nat {
    (if isUdt then 0 else 2) + (if isArr then 0 else 1)
  }

  /** fill_type_info_inner; row describes the record the function returns, if any. The catalog may be
      cyclic: the two flags alone bound the recursion. */
  function Fill(cat: Catalog, row: Option<seq<Attribute>>, oid: Oid, isArr: bool, isUdt: bool): Option<Info>
    decreases Budget(isArr, isUdt), 0
  {
    if oid !in cat || cat[oid].domain then None
    else
      var e := cat[oid];
      var asArray := !isArr && e.elem != 0 && e.arrayOut;
      var elem := if asArray then Fill(cat, row, e.elem, true, isUdt) else None;
      var plain := if asArray then Info(Array, None, false, if elem.Some? then [elem.value] else [])
                   else Info(ScalarKind(oid), None, false, []);
      if asArray && elem.None? then None
      else if isUdt then Some(plain)
      else if oid == RECORDOID && row.None? then None
      else
        var atts := if e.atts.Some? then e.atts else if oid == RECORDOID then row else None;
        if atts.None? then Some(plain)
        else
          var subs := FillAttributes(cat, row, atts.value);
          if subs.None? then None
          else Some(Info(Udt, if e.atts.Some? then e.name else None, false, subs.value))
  }

  function FillAttributes(cat: Catalog, row: Option<seq<Attribute>>, atts: seq<Attribute>): Option<seq<Info>>
    decreases Budget(false, true), |atts| + 1
  {
    if atts == [] then Some([])
    else
      var n := |atts| - 1;
      var front := FillAttributes(cat, row, atts[..n]);
      var last := if atts[n].dropped then Some(Info(Int1, atts[n].name, true, []))
                  else Fill(cat, row, atts[n].oid, false, true);
      if front.None? || last.None? then None else Some(front.value + [last.value.(name := atts[n].name)])
  }

  /** A tree without arrays of arrays and without rows inside rows. */
  predicate Shaped(i: Info, isArr: bool, isUdt: bool)
    decreases i
  {
    && WellFormedString(i.name) && !i.kind.Other?
    && (!Nested(i.kind) ==> i.subs == []) && (i.dropped ==> !Nested(i.kind))
    && (i.kind.Array? ==> !isArr && |i.subs| == 1 && !i.subs[0].dropped && Shaped(i.subs[0], true, isUdt))
    && (i.kind.Udt? ==> !isUdt && |i.subs| <= MAX_ATTRIBUTES)
    && (i.kind.Udt? ==> forall k | 0 <= k < |i.subs| :: Shaped(i.subs[k], false, true))
  }

  function Max(a: nat, b: nat): nat { if a < b then b else a }

  function Depth(i: Info): nat
    decreases i, |i.subs| + 1
  {
    1 + DepthOf(i, |i.subs|)
  }

  function DepthOf(i: Info, n: nat): nat
    requires n <= |i.subs|
    decreases i, n
  {
    if n == 0 then 0 else Max(DepthOf(i, n - 1), Depth(i.subs[n - 1]))
  }

  // ------------------------------------------------------------- built trees

  lemma {:induction false} FillShape(cat: Catalog, row: Option<seq<Attribute>>, oid: Oid, isArr: bool, isUdt: bool)
    requires WellFormedCatalog(cat) && (row.Some? ==> WellFormedAttributes(row.value))
    ensures var i := Fill(cat, row, oid, isArr, isUdt); i.Some? ==> Shaped(i.value, isArr, isUdt) && !i.value.dropped
    decreases Budget(isArr, isUdt), 0
  {
    if oid in cat && !cat[oid].domain {
      var e := cat[oid];
      if !isArr && e.elem != 0 && e.arrayOut {
        FillShape(cat, row, e.elem, true, isUdt);
      }
      if !isUdt && e.atts.Some? {
        FillAttributesShape(cat, row, e.atts.value);
      } else if !isUdt && row.Some? {
        FillAttributesShape(cat, row, row.value);
      }
    }
  }

  lemma {:induction false} FillAttributesShape(cat: Catalog, row: Option<seq<Attribute>>, atts: seq<Attribute>)
    requires WellFormedCatalog(cat) && (row.Some? ==> WellFormedAttributes(row.value)) && WellFormedAttributes(atts)
    ensures var r := FillAttributes(cat, row, atts);
            r.Some? ==> |r.value| == |atts| && forall k | 0 <= k < |atts| ::
              && Shaped(r.value[k], false, true)
              && r.value[k].dropped == atts[k].dropped && r.value[k].name == atts[k].name
    decreases Budget(false, true), |atts| + 1
  {
    if atts != [] {
      var n := |atts| - 1;
      FillAttributesShape(cat, row, atts[..n]);
      if !atts[n].dropped {
        FillShape(cat, row, atts[n].oid, false, true);
      }
    }
  }

  lemma {:induction false} DepthBound(i: Info, isArr: bool, isUdt: bool)
    requires Shaped(i, isArr, isUdt)
    ensures Depth(i) <= 1 + Budget(isArr, isUdt)
    decreases i, |i.subs| + 1
  {
    DepthOfBound(i, |i.subs|, isArr, isUdt);
  }

  lemma {:induction false} DepthOfBound(i: Info, n: nat, isArr: bool, isUdt: bool)
    requires Shaped(i, isArr, isUdt) && n <= |i.subs|
    ensures DepthOf(i, n) <= Budget(isArr, isUdt)
    decreases i, n
  {
    if n > 0 {
      DepthOfBound(i, n - 1, isArr, isUdt);
      if i.kind.Array? {
        DepthBound(i.subs[n - 1], true, isUdt);
      } else {
        DepthBound(i.subs[n - 1], false, true);
      }
    }
  }

  /** fill_type_info: at most four levels, no array directly under an array. */
  lemma BuiltTrees(cat: Catalog, row: Option<seq<Attribute>>, oid: Oid)
    requires WellFormedCatalog(cat) && (row.Some? ==> WellFormedAttributes(row.value))
    ensures var i := Fill(cat, row, oid, false, false);
            i.Some? ==> Shaped(i.value, false, false) && !i.value.dropped && Depth(i.value) <= 4
  {
    FillShape(cat, row, oid, false, false);
    var i := Fill(cat, row, oid, false, false);
    if i.Some? {
      DepthBound(i.value, false, false);
    }
  }

  // ------------------------------------------------ what a tree describes

  /** The attributes that a type has as a row: those of its relation, or of the function's result for
      the type record. Rows inside rows are not taken apart. */
  function RowOf(cat: Catalog, row: Option<seq<Attribute>>, oid: Oid, isUdt: bool): Option<seq<Attribute>> {
    if isUdt || oid !in cat then None
    else if cat[oid].atts.Some? then cat[oid].atts
    else if oid == RECORDOID then row
    else None
  }

  predicate IsArray(cat: Catalog, oid: Oid) {
    oid in cat && cat[oid].elem != 0 && cat[oid].arrayOut
  }

  /** The width that pg_type gives to the types passed in binary; all others have none. */
  function TypeLength(oid: Oid): Option<nat> {
    if oid == BOOLOID then Some(1)
    else if oid == INT2OID then Some(2)
    else if oid == INT4OID || oid == FLOAT4OID then Some(4)
    else if oid == INT8OID || oid == FLOAT8OID then Some(8)
    else None
  }

  /** A scalar goes out in the width of its type, numeric as a double, bytea as bytes, anything else as
      text. */
  predicate DescribesScalar(oid: Oid, i: Info) {
    && i.subs == [] && !Nested(i.kind) && !i.kind.Other?
    && (TypeLength(oid).Some? ==> FixedWidth(i.kind) && ScalarLength(i.kind) == TypeLength(oid).value)
    && ((i.kind.Float4? || i.kind.Float8?) <==> oid in {FLOAT4OID, FLOAT8OID, NUMERICOID})
    && (oid == NUMERICOID ==> i.kind.Float8?)
    && (i.kind.Bytea? <==> oid == BYTEAOID)
    && (i.kind.Text? <==> TypeLength(oid).None? && oid != NUMERICOID && oid != BYTEAOID)
  }

  /** The node is that of the type, place by place: a row has for each attribute the tree of its own type
      under its own name, an array the tree of its element type. */
  predicate Describes(cat: Catalog, row: Option<seq<Attribute>>, oid: Oid, isArr: bool, isUdt: bool, i: Info)
    decreases i
  {
    oid in cat && !cat[oid].domain && !i.dropped &&
    var atts := RowOf(cat, row, oid, isUdt);
    if atts.Some? then
      i.kind.Udt? && |i.subs| == |atts.value| && forall k | 0 <= k < |i.subs| ::
        && i.subs[k].name == atts.value[k].name && i.subs[k].dropped == atts.value[k].dropped
        && (!atts.value[k].dropped ==> Describes(cat, row, atts.value[k].oid, false, true, i.subs[k]))
    else if IsArray(cat, oid) && !isArr then
      i.kind.Array? && |i.subs| == 1 && Describes(cat, row, cat[oid].elem, true, isUdt, i.subs[0])
    else DescribesScalar(oid, i)
  }

  lemma {:induction false} RenamedDescribes(cat: Catalog, row: Option<seq<Attribute>>, oid: Oid, isArr: bool,
                                            isUdt: bool, i: Info, name: CString)
    requires Describes(cat, row, oid, isArr, isUdt, i)
    ensures Describes(cat, row, oid, isArr, isUdt, i.(name := name))
  {
    assert i.(name := name).subs == i.subs;
  }

  lemma ScalarDescribed(oid: Oid, name: CString)
    ensures DescribesScalar(oid, Info(ScalarKind(oid), name, false, []))
  {
  }

  /** A tree is built only for the type it describes; a composite type also gives it its name. */
  lemma {:induction false} BuiltDescribes(cat: Catalog, row: Option<seq<Attribute>>, oid: Oid, isArr: bool, isUdt: bool)
    ensures var i := Fill(cat, row, oid, isArr, isUdt);
            && (i.Some? ==> Describes(cat, row, oid, isArr, isUdt, i.value))
            && (i.Some? ==> i.value.name == if cat[oid].atts.Some? && !isUdt then cat[oid].name else None)
    decreases Budget(isArr, isUdt), 0
  {
    var i := Fill(cat, row, oid, isArr, isUdt);
    if i.Some? {
      var e := cat[oid];
      var atts := RowOf(cat, row, oid, isUdt);
      if atts.Some? {
        AttributesDescribed(cat, row, atts.value);
        var subs := FillAttributes(cat, row, atts.value);
        assert i.value.subs == subs.value;
      } else if IsArray(cat, oid) && !isArr {
        BuiltDescribes(cat, row, e.elem, true, isUdt);
      } else {
        ScalarDescribed(oid, None);
      }
    }
  }

  lemma {:induction false} AttributesDescribed(cat: Catalog, row: Option<seq<Attribute>>, atts: seq<Attribute>)
    ensures var subs := FillAttributes(cat, row, atts);
            subs.Some? ==> |subs.value| == |atts| && forall k | 0 <= k < |atts| ::
              && subs.value[k].name == atts[k].name && subs.value[k].dropped == atts[k].dropped
              && (!atts[k].dropped ==> Describes(cat, row, atts[k].oid, false, true, subs.value[k]))
    decreases Budget(false, true), |atts| + 1
  {
    if atts != [] {
      var n := |atts| - 1;
      AttributesDescribed(cat, row, atts[..n]);
      if !atts[n].dropped {
        BuiltDescribes(cat, row, atts[n].oid, false, true);
        var last := Fill(cat, row, atts[n].oid, false, true);
        if last.Some? {
          RenamedDescribes(cat, row, atts[n].oid, false, true, last.value, atts[n].name);
        }
      }
      hide Describes;
    }
  }

  /** And it is refused exactly for an unknown type, a domain, a record that nothing describes, and a type
      with an element or a live attribute that is refused. */
  lemma {:induction false} RefusedIff(cat: Catalog, row: Option<seq<Attribute>>, oid: Oid, isArr: bool, isUdt: bool)
    ensures Fill(cat, row, oid, isArr, isUdt).None? <==>
              || oid !in cat || cat[oid].domain
              || (IsArray(cat, oid) && !isArr && Fill(cat, row, cat[oid].elem, true, isUdt).None?)
              || (!isUdt && oid == RECORDOID && row.None?)
              || (RowOf(cat, row, oid, isUdt).Some? && SomeRefused(cat, row, RowOf(cat, row, oid, isUdt).value))
  {
    if RowOf(cat, row, oid, isUdt).Some? {
      AttributesRefused(cat, row, RowOf(cat, row, oid, isUdt).value);
    }
  }

  predicate SomeRefused(cat: Catalog, row: Option<seq<Attribute>>, atts: seq<Attribute>) {
    exists k | 0 <= k < |atts| :: !atts[k].dropped && Fill(cat, row, atts[k].oid, false, true).None?
  }

  lemma {:induction false} AttributesRefused(cat: Catalog, row: Option<seq<Attribute>>, atts: seq<Attribute>)
    ensures FillAttributes(cat, row, atts).None? <==> SomeRefused(cat, row, atts)
    decreases |atts|
  {
    if atts != [] {
      var n := |atts| - 1;
      AttributesRefused(cat, row, atts[..n]);
      if k :| 0 <= k < |atts| && !atts[k].dropped && Fill(cat, row, atts[k].oid, false, true).None? {
        if k < n {
          assert atts[..n][k] == atts[k];
        }
      }
      if k :| 0 <= k < n && !atts[..n][k].dropped && Fill(cat, row, atts[..n][k].oid, false, true).None? {
        assert atts[..n][k] == atts[k];
      }
    }
  }

  /** fill_type_info_inner as it works: the node is a scalar, then perhaps an array, then perhaps a
      row; any error ends it. */
  method FillInner(cat: Catalog, row: Option<seq<Attribute>>, oid: Oid, isArr: bool, isUdt: bool)
    returns (r: Option<Info>)
    ensures r == Fill(cat, row, oid, isArr, isUdt)
    decreases Budget(isArr, isUdt), 0
  {
    if oid !in cat || cat[oid].domain {
      return None;
    }
    var e := cat[oid];
    var info := Info(ScalarKind(oid), None, false, []);
    if !isArr && e.elem != 0 && e.arrayOut {
      var elem := FillInner(cat, row, e.elem, true, isUdt);
      if elem.None? {
        return None;
      }
      info := info.(kind := Array, subs := [elem.value]);
    }
    if !isUdt {
      var desc: Option<seq<Attribute>> := None;
      if oid == RECORDOID {
        if row.None? {
          return None;
        }
        desc := row;
      }
      if e.atts.Some? {
        desc := e.atts;
        info := info.(name := e.name);
      }
      if desc.Some? {
        var subs := FillEach(cat, row, desc.value);
        if subs.None? {
          return None;
        }
        info := info.(kind := Udt, subs := subs.value);
      }
    }
    return Some(info);
  }

  method FillEach(cat: Catalog, row: Option<seq<Attribute>>, atts: seq<Attribute>) returns (r: Option<seq<Info>>)
    ensures r == FillAttributes(cat, row, atts)
    decreases Budget(false, true), |atts| + 1
  {
    var subs: seq<Info> := [];
    for i := 0 to |atts|
      invariant FillAttributes(cat, row, atts[..i]) == Some(subs)
    {
      assert atts[..i + 1][..i] == atts[..i];
      var sub := Info(Int1, None, true, []);
      if !atts[i].dropped {
        var filled := FillInner(cat, row, atts[i].oid, false, true);
        if filled.None? {
          FillAttributesStop(cat, row, atts, i + 1);
          return None;
        }
        sub := filled.value;
      }
      subs := subs + [sub.(name := atts[i].name)];
    }
    assert atts[..|atts|] == atts;
    return Some(subs);
  }

  /** One attribute that cannot be filled fails them all. */
  lemma {:induction false} FillAttributesStop(cat: Catalog, row: Option<seq<Attribute>>, atts: seq<Attribute>, n: nat)
    requires n <= |atts| && FillAttributes(cat, row, atts[..n]).None?
    ensures FillAttributes(cat, row, atts).None?
  {
    if n == |atts| {
      assert atts[..n] == atts;
    } else {
      var m := |atts| - 1;
      assert atts[..m][..n] == atts[..n];
      FillAttributesStop(cat, row, atts[..m], n);
    }
  }

  // ------------------------------------------------- types and rows as sent

  /** Live columns among the first n. */
  function Live(i: Info, n: nat): nat
    requires n <= |i.subs|
  {
    if n == 0 then 0 else Live(i, n - 1) + if i.subs[n - 1].dropped then 0 else 1
  }

  /** copy_type_info: the type as the client sees it, without dropped columns. */
  function Copy(i: Info): Type
    decreases i, |i.subs| + 1
  {
    Type(i.kind, i.name, CopySubs(i, |i.subs|))
  }

  function CopySubs(i: Info, n: nat): (ts: seq<Type>)
    requires n <= |i.subs|
    ensures |ts| == Live(i, n)
    decreases i, n
  {
    if n == 0 then []
    else CopySubs(i, n - 1) + if i.subs[n - 1].dropped then [] else [Copy(i.subs[n - 1])]
  }

  /** A value of the backend: a row has a field for every column, with anything in dropped ones. */
  predicate IsDatum(i: Info, v: Value)
    decreases i
  {
    match v
    case Null => true
    case Scalar(bs) => FixedWidth(i.kind) && |bs| == ScalarLength(i.kind)
    case Str(s) => i.kind.Text? && WellFormedString(s)
    case Blob(bs) => i.kind.Bytea? && |bs| <= INT_MAX
    case Arr(dims, items) =>
      && i.kind.Array? && i.subs != [] && WellFormedDims(dims)
      && ArraySize(dims).Some? && |items| == ItemCount(ArraySize(dims).value)
      && forall k | 0 <= k < |items| :: IsDatum(i.subs[0], items[k])
    case Row(fields) =>
      && i.kind.Udt? && |fields| == |i.subs|
      && forall k | 0 <= k < |fields| && !i.subs[k].dropped :: IsDatum(i.subs[k], fields[k])
  }

  /** The output functions: what is sent for a value. */
  function AsValue(i: Info, v: Value): Value
    requires IsDatum(i, v)
    decreases i, |i.subs| + 1
  {
    match v
    case Arr(dims, items) => Arr(dims, seq(|items|, k requires 0 <= k < |items| => AsValue(i.subs[0], items[k])))
    case Row(fields) => Row(AsFields(i, fields, |i.subs|))
    case _ => v
  }

  predicate IsRow(i: Info, fields: seq<Value>) {
    i.kind.Udt? && IsDatum(i, Row(fields))
  }

  function AsFields(i: Info, fields: seq<Value>, n: nat): (vs: seq<Value>)
    requires IsRow(i, fields) && n <= |i.subs|
    ensures |vs| == Live(i, n)
    decreases i, n
  {
    if n == 0 then []
    else AsFields(i, fields, n - 1) + if i.subs[n - 1].dropped then [] else [AsValue(i.subs[n - 1], fields[n - 1])]
  }

  /** What is sent for column k stands at the place of its type. */
  lemma {:induction false} FieldAt(i: Info, fields: seq<Value>, k: nat, n: nat)
    requires IsRow(i, fields) && k < n <= |i.subs| && !i.subs[k].dropped
    ensures Live(i, k) < Live(i, n)
    ensures AsFields(i, fields, n)[Live(i, k)] == AsValue(i.subs[k], fields[k])
    ensures CopySubs(i, n)[Live(i, k)] == Copy(i.subs[k])
    decreases n
  {
    if k < n - 1 {
      FieldAt(i, fields, k, n - 1);
    }
  }

  /** Every element of an array is sent in its place, and everything else as it is. */
  lemma ElementAt(i: Info, v: Value)
    requires IsDatum(i, v)
    ensures v.Arr? ==> AsValue(i, v).Arr? && AsValue(i, v).dims == v.dims && |AsValue(i, v).items| == |v.items|
    ensures v.Arr? ==> forall k | 0 <= k < |v.items| :: AsValue(i, v).items[k] == AsValue(i.subs[0], v.items[k])
    ensures !v.Arr? && !v.Row? ==> AsValue(i, v) == v
  {
  }

  /** Every place belongs to some live column. */
  lemma {:induction false} PlaceOf(i: Info, j: nat, n: nat) returns (k: nat)
    requires n <= |i.subs| && j < Live(i, n)
    ensures k < n && !i.subs[k].dropped && Live(i, k) == j
    decreases n
  {
    if j < Live(i, n - 1) {
      k := PlaceOf(i, j, n - 1);
    } else {
      k := n - 1;
    }
  }

  /** The value sent fits the type sent, place by place and level by level; so the receiver of an
      array never meets an array of arrays. */
  lemma {:induction false} SentFits(i: Info, v: Value, isArr: bool, isUdt: bool)
    requires Shaped(i, isArr, isUdt) && !i.dropped && IsDatum(i, v)
    ensures WellFormedValue(Copy(i), AsValue(i, v))
    decreases i
  {
    match v
    case Arr(dims, items) => ItemsFit(i, items, isUdt);
    case Row(fields) =>
      var vs := AsFields(i, fields, |i.subs|);
      forall j | 0 <= j < |vs| ensures WellFormedValue(Copy(i).subs[j], vs[j]) {
        var k := PlaceOf(i, j, |i.subs|);
        FieldAt(i, fields, k, |i.subs|);
        SentFits(i.subs[k], fields[k], false, true);
      }
    case _ =>
  }

  lemma {:induction false} ItemsFit(i: Info, items: seq<Value>, isUdt: bool)
    requires i.kind.Array? && Shaped(i, false, isUdt)
    requires forall k | 0 <= k < |items| :: IsDatum(i.subs[0], items[k])
    ensures Copy(i).subs == [Copy(i.subs[0])] && ItemKind(i.subs[0].kind)
    ensures forall k | 0 <= k < |items| :: WellFormedValue(Copy(i.subs[0]), AsValue(i.subs[0], items[k]))
    decreases i, 0
  {
    assert CopySubs(i, 0) == [];
    assert Live(i, 1) == Live(i, 0) + 1;
    forall k | 0 <= k < |items| ensures WellFormedValue(Copy(i.subs[0]), AsValue(i.subs[0], items[k])) {
      SentFits(i.subs[0], items[k], true, isUdt);
    }
  }

  lemma {:induction false} CopyFits(i: Info, isArr: bool, isUdt: bool)
    requires Shaped(i, isArr, isUdt) && !i.dropped
    ensures WellFormedType(Copy(i))
    decreases i
  {
    LiveBound(i, |i.subs|);
    forall j | 0 <= j < |Copy(i).subs| ensures WellFormedType(Copy(i).subs[j]) {
      var k := PlaceOf(i, j, |i.subs|);
      CopyAt(i, k, |i.subs|);
      CopyFits(i.subs[k], i.kind.Array?, isUdt || i.kind.Udt?);
    }
  }

  lemma {:induction false} LiveBound(i: Info, n: nat)
    requires n <= |i.subs|
    ensures Live(i, n) <= n
  {
    if n > 0 {
      LiveBound(i, n - 1);
    }
  }

  lemma {:induction false} CopyAt(i: Info, k: nat, n: nat)
    requires k < n <= |i.subs| && !i.subs[k].dropped
    ensures Live(i, k) < Live(i, n) && CopySubs(i, n)[Live(i, k)] == Copy(i.subs[k])
    decreases n
  {
    if k < n - 1 {
      CopyAt(i, k, n - 1);
    }
  }

  /** Both sides of the wire: the value sent for a built type is read back from its bytes. */
  lemma SentIsRead(cat: Catalog, row: Option<seq<Attribute>>, oid: Oid, v: Value, rest: seq<byte>)
    requires WellFormedCatalog(cat) && (row.Some? ==> WellFormedAttributes(row.value))
    requires var i := Fill(cat, row, oid, false, false); i.Some? && IsDatum(i.value, v)
    ensures var i := Fill(cat, row, oid, false, false).value;
            && WellFormedType(Copy(i)) && WellFormedValue(Copy(i), AsValue(i, v))
            && TakeType(EncodeType(Copy(i)) + rest) == Done(Copy(i), rest)
            && TakeValue(Copy(i), EncodeValue(Copy(i), AsValue(i, v)) + rest) == Done(AsValue(i, v), rest)
  {
    FillShape(cat, row, oid, false, false);
    var i := Fill(cat, row, oid, false, false).value;
    CopyFits(i, false, false);
    SentFits(i, v, false, false);
    TypeRoundTrip(Copy(i), rest);
    ValueRoundTrip(Copy(i), AsValue(i, v), rest);
  }

  /** copy_type_info as it works: count the live columns, then fill their places. */
  method CopyTypeInfo(i: Info) returns (t: Type)
    ensures t == Copy(i)
    decreases i
  {
    var n := 0;
    for k := 0 to |i.subs|
      invariant n == Live(i, k)
    {
      if !i.subs[k].dropped {
        n := n + 1;
      }
    }
    var places := new Type[n](_ => Type(Int1, None, []));
    var j := 0;
    for k := 0 to |i.subs|
      invariant j == Live(i, k) <= n && places[..j] == CopySubs(i, k)
    {
      if !i.subs[k].dropped {
        CopyAt(i, k, |i.subs|);
        var sub := CopyTypeInfo(i.subs[k]);
        places[j] := sub;
        j := j + 1;
      }
    }
    t := Type(i.kind, i.name, places[..]);
  }

  /** plc_datum_as_udt */
  method DatumAsUdt(i: Info, fields: seq<Value>) returns (data: array<Value>)
    requires IsRow(i, fields)
    ensures data[..] == AsFields(i, fields, |i.subs|)
  {
    var n := 0;
    for k := 0 to |i.subs|
      invariant n == Live(i, k)
    {
      if !i.subs[k].dropped {
        n := n + 1;
      }
    }
    data := new Value[n](_ => Null);
    var j := 0;
    for k := 0 to |i.subs|
      invariant j == Live(i, k) <= n && data[..j] == AsFields(i, fields, k)
    {
      if !i.subs[k].dropped {
        FieldAt(i, fields, k, |i.subs|);
        data[j] := if fields[k].Null? then Null else AsValue(i.subs[k], fields[k]);
        j := j + 1;
      }
    }
  }

  // ------------------------------------------------------- rows from the client

  /** What memory that is never written holds, by the place in the value where it is read. */
  type Leftover = seq<nat> -> Value

  /** The input functions, at some place of a value. A value that does not fit gives None. */
  function FromValue(i: Info, v: Value, at: seq<nat>, left: Leftover): Option<Value>
    decreases i, 1
  {
    match v
    case Null => Some(Null)
    case Scalar(bs) => if FixedWidth(i.kind) && |bs| == ScalarLength(i.kind) then Some(v) else None
    case Str(s) => if i.kind.Text? then Some(v) else None
    case Blob(bs) => if i.kind.Bytea? then Some(v) else None
    case Arr(dims, items) =>
      if !i.kind.Array? || i.subs == [] then None
      else if forall k | 0 <= k < |items| :: FromValue(i.subs[0], items[k], at + [k], left).Some?
      then
        Some(Arr(dims, seq(|items|, k requires 0 <= k < |items| =>
          FromValue(i.subs[0], items[k], at + [k], left).value)))
      else None
    case Row(fields) =>
      if !i.kind.Udt? then None
      else if forall k | 0 <= k < |i.subs| :: FromField(i, fields, k, at, left).Some?
      then Some(Row(seq(|i.subs|, k requires 0 <= k < |i.subs| => FromField(i, fields, k, at, left).value)))
      else None
  }

  /** Column k of a row from the client. The value is taken from the place of the column and is
      converted with the column numbered by that place; a dropped column has no input function. For a
      dropped column neither value nor null flag is ever written: it gets what is left in memory. */
  function FromField(i: Info, fields: seq<Value>, k: nat, at: seq<nat>, left: Leftover): Option<Value>
    requires k < |i.subs|
    decreases i, 0
  {
    if i.subs[k].dropped then Some(left(at + [k]))
    else
      var j := Live(i, k);
      if j >= |fields| then None
      else if fields[j].Null? then Some(Null)
      else if j >= |i.subs| || i.subs[j].dropped then None
      else FromValue(i.subs[j], fields[j], at + [k], left)
  }

  lemma RowIs(i: Info, fields: seq<Value>, values: seq<Value>, at: seq<nat>, left: Leftover)
    requires i.kind.Udt? && |values| == |i.subs|
    requires forall k | 0 <= k < |i.subs| :: FromField(i, fields, k, at, left) == Some(values[k])
    ensures FromValue(i, Row(fields), at, left) == Some(Row(values))
  {
    var v := Row(fields);
    assert v.fields == fields;
    assert forall k | 0 <= k < |i.subs| :: FromField(i, v.fields, k, at, left).Some?;
    assert FromValue(i, v, at, left).Some?;
    assert FromValue(i, v, at, left).value.fields == values;
  }

  /** plc_datum_from_udt: the two arrays are allocated but not cleared. */
  method DatumFromUdt(i: Info, fields: seq<Value>, at: seq<nat>, left: Leftover) returns (r: Option<Value>)
    requires i.kind.Udt?
    ensures r == FromValue(i, Row(fields), at, left)
  {
    var values := new Value[|i.subs|](k => left(at + [k]));
    var j := 0;
    for k := 0 to |i.subs|
      invariant j == Live(i, k)
      invariant forall m | 0 <= m < k :: FromField(i, fields, m, at, left) == Some(values[m])
      invariant forall m | k <= m < |i.subs| :: values[m] == left(at + [m])
    {
      if !i.subs[k].dropped {
        var x: Option<Value> := None;
        if j < |fields| {
          if fields[j].Null? {
            x := Some(Null);
          } else if j < |i.subs| && !i.subs[j].dropped {
            x := FromValue(i.subs[j], fields[j], at + [k], left);
          }
        }
        if x.None? {
          assert FromField(i, fields, k, at, left).None?;
          return None;
        }
        values[k] := x.value;
        j := j + 1;
      }
    }
    RowIs(i, fields, values[..], at, left);
    r := Some(Row(values[..]));
  }

  /** No live column follows a dropped one. */
  predicate DropsLast(i: Info) {
    forall a, b | 0 <= a < b < |i.subs| && i.subs[a].dropped :: i.subs[b].dropped
  }

  /** ... at every level. */
  predicate AllDropsLast(i: Info)
    decreases i
  {
    && (i.kind.Udt? ==> DropsLast(i))
    && forall k | 0 <= k < |i.subs| && !i.subs[k].dropped :: AllDropsLast(i.subs[k])
  }

  /** No column was dropped, at any level. */
  predicate NoDrops(i: Info)
    decreases i
  {
    forall k | 0 <= k < |i.subs| :: !i.subs[k].dropped && NoDrops(i.subs[k])
  }

  /** Equal but for the dropped columns. */
  predicate SameLive(i: Info, v: Value, w: Value)
    decreases i
  {
    if v.Arr? && w.Arr? && i.subs != [] then
      && v.dims == w.dims && |v.items| == |w.items|
      && forall k | 0 <= k < |v.items| :: SameLive(i.subs[0], v.items[k], w.items[k])
    else if v.Row? && w.Row? then
      && |v.fields| == |w.fields| == |i.subs|
      && forall k | 0 <= k < |i.subs| && !i.subs[k].dropped :: SameLive(i.subs[k], v.fields[k], w.fields[k])
    else v == w
  }

  /** What is sent for the value comes back, all live columns unchanged. */
  predicate ComesBack(i: Info, v: Value, at: seq<nat>, left: Leftover)
    requires IsDatum(i, v)
  {
    var w := FromValue(i, AsValue(i, v), at, left);
    w.Some? && SameLive(i, v, w.value)
  }

  lemma {:induction false} LiveIsPlace(i: Info, k: nat)
    requires k <= |i.subs| && forall m | 0 <= m < k :: !i.subs[m].dropped
    ensures Live(i, k) == k
  {
    if k > 0 {
      LiveIsPlace(i, k - 1);
    }
  }

  lemma {:induction false} Inverse(i: Info, v: Value, isArr: bool, isUdt: bool, at: seq<nat>, left: Leftover)
    requires Shaped(i, isArr, isUdt) && !i.dropped && IsDatum(i, v) && AllDropsLast(i)
    ensures ComesBack(i, v, at, left)
    decreases i
  {
    if v.Arr? {
      ItemsBack(i, v, isUdt, at, left);
    } else if v.Row? {
      FieldsBack(i, v, at, left);
    }
  }

  lemma {:induction false} ItemsBack(i: Info, v: Value, isUdt: bool, at: seq<nat>, left: Leftover)
    requires i.kind.Array? && Shaped(i, false, isUdt) && IsDatum(i, v) && AllDropsLast(i) && v.Arr?
    ensures ComesBack(i, v, at, left)
    decreases i, 0
  {
    forall k | 0 <= k < |v.items| ensures ComesBack(i.subs[0], v.items[k], at + [k], left) {
      Inverse(i.subs[0], v.items[k], true, isUdt, at + [k], left);
    }
    var sent := AsValue(i, v);
    assert forall k | 0 <= k < |v.items| :: sent.items[k] == AsValue(i.subs[0], v.items[k]);
    assert FromValue(i, sent, at, left).Some?;
  }

  lemma {:induction false} FieldsBack(i: Info, v: Value, at: seq<nat>, left: Leftover)
    requires i.kind.Udt? && Shaped(i, false, false) && IsDatum(i, v) && AllDropsLast(i) && v.Row?
    ensures ComesBack(i, v, at, left)
    decreases i, 0
  {
    var sent := AsValue(i, v);
    forall k | 0 <= k < |i.subs|
      ensures FromField(i, sent.fields, k, at, left).Some?
      ensures !i.subs[k].dropped ==> SameLive(i.subs[k], v.fields[k], FromField(i, sent.fields, k, at, left).value)
    {
      if !i.subs[k].dropped {
        LiveIsPlace(i, k);
        FieldAt(i, v.fields, k, |i.subs|);
        Inverse(i.subs[k], v.fields[k], false, true, at + [k], left);
        AsNull(i.subs[k], v.fields[k]);
      }
    }
    assert FromValue(i, sent, at, left).Some?;
  }

  lemma AsNull(i: Info, v: Value)
    requires IsDatum(i, v)
    ensures AsValue(i, v).Null? <==> v.Null?
  {
  }

  /** A value of the type that is not null. */
  function Sample(i: Info): (v: Value)
    requires !i.kind.Other? && (i.kind.Array? ==> i.subs != [])
    ensures !v.Null? && IsDatum(i, v)
  {
    if FixedWidth(i.kind) then Scalar(seq(ScalarLength(i.kind), _ => 0))
    else if i.kind.Text? then Str(Some([]))
    else if i.kind.Bytea? then Blob([])
    else if i.kind.Array? then Arr([], [])
    else Row(seq(|i.subs|, _ => Null))
  }

  /** Columns before a are live, those from a up to b dropped, b is live: its value is converted with
      column a. */
  lemma {:induction false} LiveAfterDrop(i: Info, a: nat, b: nat)
    requires a < b < |i.subs| && (forall m | 0 <= m < a :: !i.subs[m].dropped)
    requires forall m | a <= m < b :: i.subs[m].dropped
    ensures Live(i, b) == a
    decreases b
  {
    if a + 1 < b {
      LiveAfterDrop(i, a, b - 1);
    } else {
      LiveIsPlace(i, a);
    }
  }

  lemma {:induction false} FirstDropped(i: Info, a: nat) returns (first: nat)
    requires a < |i.subs| && i.subs[a].dropped
    ensures first <= a && i.subs[first].dropped && forall m | 0 <= m < first :: !i.subs[m].dropped
  {
    if m :| 0 <= m < a && i.subs[m].dropped {
      first := FirstDropped(i, m);
    } else {
      first := a;
    }
  }

  lemma {:induction false} FirstLive(i: Info, a: nat, b: nat) returns (next: nat)
    requires a < b < |i.subs| && i.subs[a].dropped && !i.subs[b].dropped
    ensures a < next <= b && !i.subs[next].dropped && forall m | a <= m < next :: i.subs[m].dropped
    decreases b
  {
    if m :| a < m < b && !i.subs[m].dropped {
      next := FirstLive(i, a, m);
    } else {
      next := b;
    }
  }

  /** A row whose only value stands in the first live column after a dropped one. */
  lemma {:induction false} RowLost(i: Info, at: seq<nat>, left: Leftover) returns (v: Value)
    requires i.kind.Udt? && Shaped(i, false, false) && !DropsLast(i)
    ensures IsDatum(i, v) && !ComesBack(i, v, at, left)
  {
    var a0, b0 :| 0 <= a0 < b0 < |i.subs| && i.subs[a0].dropped && !i.subs[b0].dropped;
    var a := FirstDropped(i, a0);
    var b := FirstLive(i, a, b0);
    LiveAfterDrop(i, a, b);
    v := OnlyField(i, b, Sample(i.subs[b]));
    MisplacedLost(i, v.fields, a, b, at, left);
  }

  /** A row with one value, the rest null. */
  function OnlyField(i: Info, k: nat, x: Value): (v: Value)
    requires i.kind.Udt? && k < |i.subs| && !i.subs[k].dropped && IsDatum(i.subs[k], x)
    ensures v.Row? && IsRow(i, v.fields) && v.fields[k] == x
  {
    Row(seq(|i.subs|, m requires 0 <= m < |i.subs| => if m == k then x else Null))
  }

  lemma MisplacedLost(i: Info, fields: seq<Value>, a: nat, b: nat, at: seq<nat>, left: Leftover)
    requires IsRow(i, fields) && b < |i.subs| && !i.subs[b].dropped && !fields[b].Null?
    requires Live(i, b) == a < b && i.subs[a].dropped
    ensures FromValue(i, AsValue(i, Row(fields)), at, left).None?
  {
    FieldAt(i, fields, b, |i.subs|);
    AsNull(i.subs[b], fields[b]);
    var v := Row(AsFields(i, fields, |i.subs|));
    assert FromField(i, v.fields, b, at, left).None?;
  }

  lemma {:induction false} Lost(i: Info, isArr: bool, isUdt: bool, at: seq<nat>, left: Leftover) returns (v: Value)
    requires Shaped(i, isArr, isUdt) && !i.dropped && !AllDropsLast(i)
    ensures IsDatum(i, v) && !ComesBack(i, v, at, left)
    decreases i
  {
    if i.kind.Array? {
      var x := Lost(i.subs[0], true, isUdt, at + [0], left);
      v := ItemLost(i, x, at, left);
    } else if !DropsLast(i) {
      v := RowLost(i, at, left);
    } else {
      var k :| 0 <= k < |i.subs| && !i.subs[k].dropped && !AllDropsLast(i.subs[k]);
      var x := Lost(i.subs[k], false, true, at + [k], left);
      v := OnlyField(i, k, x);
      FieldBack(i, k, x, at, left);
    }
  }

  /** An array of one item comes back with what comes back for the item. */
  lemma ItemBack(i: Info, x: Value, at: seq<nat>, left: Leftover)
    requires i.kind.Array? && |i.subs| == 1 && IsDatum(i.subs[0], x)
    ensures IsDatum(i, Arr([1], [x]))
    ensures var back := FromValue(i, AsValue(i, Arr([1], [x])), at, left);
            var item := FromValue(i.subs[0], AsValue(i.subs[0], x), at + [0], left);
            back.Some? ==> item.Some? && back.value.Arr? && back.value.items == [item.value]
  {
    var v := Arr([1], [x]);
    assert SizeFrom(1, [1]) == Some(1) by {
      assert [1][1..] == [];
    }
    var back := FromValue(i, AsValue(i, v), at, left);
    assert AsValue(i, v).items[0] == AsValue(i.subs[0], x);
    assert back.Some? ==> Some(back.value.items[0]) == FromValue(i.subs[0], AsValue(i.subs[0], x), at + [0], left);
  }

  lemma ItemLost(i: Info, x: Value, at: seq<nat>, left: Leftover) returns (v: Value)
    requires i.kind.Array? && |i.subs| == 1 && IsDatum(i.subs[0], x) && !ComesBack(i.subs[0], x, at + [0], left)
    ensures IsDatum(i, v) && !ComesBack(i, v, at, left)
  {
    v := Arr([1], [x]);
    ItemBack(i, x, at, left);
  }

  /** A value alone in its row, with no dropped column before it, comes back as it does by itself. */
  lemma FieldBack(i: Info, k: nat, x: Value, at: seq<nat>, left: Leftover)
    requires i.kind.Udt? && k < |i.subs| && !i.subs[k].dropped && IsDatum(i.subs[k], x)
    requires forall m | 0 <= m < k :: !i.subs[m].dropped
    ensures var back := FromValue(i, AsValue(i, OnlyField(i, k, x)), at, left);
            var field := FromValue(i.subs[k], AsValue(i.subs[k], x), at + [k], left);
            back.Some? ==> field.Some? && back.value.Row? && |back.value.fields| == |i.subs|
                           && back.value.fields[k] == field.value
  {
    var v := OnlyField(i, k, x);
    var vs := AsFields(i, v.fields, |i.subs|);
    LiveIsPlace(i, k);
    FieldAt(i, v.fields, k, |i.subs|);
    AsNull(i.subs[k], x);
    assert FromField(i, vs, k, at, left) == FromValue(i.subs[k], AsValue(i.subs[k], x), at + [k], left);
    var back := FromValue(i, Row(vs), at, left);
    assert back.Some? ==> Some(back.value.fields[k]) == FromField(i, vs, k, at, left);
  }

  /** Whatever unwritten memory holds: every value sent to the client comes back with all its live
      columns exactly when, at every level of the type, no live column follows a dropped one. Lower
      bounds of arrays are no part of a value: they are not sent, and all come back as 1. */
  lemma ComesBackIff(i: Info, isArr: bool, isUdt: bool, at: seq<nat>, left: Leftover)
    requires Shaped(i, isArr, isUdt) && !i.dropped
    ensures (forall v | IsDatum(i, v) :: ComesBack(i, v, at, left)) <==> AllDropsLast(i)
  {
    if AllDropsLast(i) {
      forall v | IsDatum(i, v) ensures ComesBack(i, v, at, left) {
        Inverse(i, v, isArr, isUdt, at, left);
      }
    } else {
      var v := Lost(i, isArr, isUdt, at, left);
    }
  }

  // ------------------------------------------------------- nothing dropped

  predicate Unchanged(i: Info, v: Value, at: seq<nat>, left: Leftover)
    requires IsDatum(i, v)
  {
    FromValue(i, AsValue(i, v), at, left) == Some(v)
  }

  lemma {:induction false} NoDropsLast(i: Info)
    requires NoDrops(i)
    ensures AllDropsLast(i)
    decreases i
  {
    forall k | 0 <= k < |i.subs| ensures AllDropsLast(i.subs[k]) {
      NoDropsLast(i.subs[k]);
    }
  }

  lemma {:induction false} SameIsEqual(i: Info, v: Value, w: Value)
    requires NoDrops(i) && IsDatum(i, v) && SameLive(i, v, w)
    ensures v == w
    decreases i
  {
    if v.Arr? && w.Arr? {
      forall k | 0 <= k < |v.items| ensures v.items[k] == w.items[k] {
        SameIsEqual(i.subs[0], v.items[k], w.items[k]);
      }
      assert v.items == w.items;
    } else if v.Row? && w.Row? {
      forall k | 0 <= k < |v.fields| ensures v.fields[k] == w.fields[k] {
        SameIsEqual(i.subs[k], v.fields[k], w.fields[k]);
      }
      assert v.fields == w.fields;
    }
  }

  /** Memory that holds no null anywhere. */
  function Rubbish(at: seq<nat>): Value { Scalar([]) }

  /** A value that a dropped column changes. */
  lemma {:induction false} Altered(i: Info, isArr: bool, isUdt: bool, at: seq<nat>) returns (v: Value)
    requires Shaped(i, isArr, isUdt) && !i.dropped && !NoDrops(i)
    ensures IsDatum(i, v) && !Unchanged(i, v, at, Rubbish)
    decreases i
  {
    if i.kind.Array? {
      var x := Altered(i.subs[0], true, isUdt, at + [0]);
      v := Arr([1], [x]);
      ItemBack(i, x, at, Rubbish);
    } else if k :| 0 <= k < |i.subs| && i.subs[k].dropped {
      v := Sample(i);
      DroppedAltered(i, k, at);
    } else {
      var k :| 0 <= k < |i.subs| && !NoDrops(i.subs[k]);
      var x := Altered(i.subs[k], false, true, at + [k]);
      v := OnlyField(i, k, x);
      FieldBack(i, k, x, at, Rubbish);
    }
  }

  /** The row of nulls comes back with rubbish in the dropped column, if at all. */
  lemma DroppedAltered(i: Info, k: nat, at: seq<nat>)
    requires i.kind.Udt? && k < |i.subs| && i.subs[k].dropped
    ensures !Unchanged(i, Sample(i), at, Rubbish)
  {
    var sent := AsValue(i, Sample(i));
    assert FromField(i, sent.fields, k, at, Rubbish) == Some(Scalar([]));
    var back := FromValue(i, sent, at, Rubbish);
    assert back.Some? ==> back.value.fields[k] == Scalar([]);
  }

  /** Every value comes back as it was, whatever unwritten memory holds, exactly when no column was
      dropped at any level. */
  lemma UnchangedIff(i: Info, isArr: bool, isUdt: bool)
    requires Shaped(i, isArr, isUdt) && !i.dropped
    ensures (forall v, left: Leftover | IsDatum(i, v) :: Unchanged(i, v, [], left)) <==> NoDrops(i)
  {
    if NoDrops(i) {
      NoDropsLast(i);
      forall v, left: Leftover | IsDatum(i, v) ensures Unchanged(i, v, [], left) {
        Inverse(i, v, isArr, isUdt, [], left);
        SameIsEqual(i, v, FromValue(i, AsValue(i, v), [], left).value);
      }
    } else {
      var v := Altered(i, isArr, isUdt, []);
    }
  }
}
