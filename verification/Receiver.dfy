/** The receive functions of src/common/comm_channel.c over the buffered stream: each one
    computes what the pure decoder says of the incoming stream and leaves what follows.

    A receive stops at its first failure; the source reports failed socket calls through
    plc_elog(ERROR), which does not return.  A request at which the source would overflow an int
    fails.
 */
module Receiver {
  import opened Basics
  import opened ByteStream
  import opened Codec

  /** A receive since the old state delivered what `spec` decodes, or failed because the bytes are no
      encoding, the environment refused something or a request would have overflown an int; the latter
      does not happen when there is little to read. */
  twostate predicate Received<T>(conn: Conn, ok: bool, new v: T, new spec: Parse<T>)
    requires old(conn.Valid())
    reads conn, conn.inp, conn.out, conn.inp.data, conn.rx
  {
    && conn.Valid() && (conn.inp.data == old(conn.inp.data) || fresh(conn.inp.data))
    && (ok ==> spec == Done(v, conn.Incoming()) && |conn.Incoming()| <= |old(conn.Incoming())|)
    && conn.Trouble() >= old(conn.Trouble()) + (if ok || spec.Fail? then 0 else 1)
    && (spec.Done? && Little(conn) ==> StaysSmall(conn))
  }

  /** In the old state there was little to read and no great request had been made. */
  twostate predicate Little(conn: Conn)
    requires old(conn.Valid())
    reads conn, conn.inp, conn.out
  {
    old(conn.Modest() && |conn.Incoming()| <= MAX_CHUNK)
  }

  method Get(conn: Conn, n: nat) returns (ok: bool, bs: seq<byte>)
    requires conn.Valid()
    modifies conn`asked, conn`overflows, conn.inp, conn.inp.data, conn.rx
    ensures Received(conn, ok, bs, TakeBytes(old(conn.Incoming()), n))
    ensures ok ==> |bs| == n
  {
    bs := [];
    if conn.Modest() && n <= MAX_CHUNK {
      SmallRequestsFit(conn.inp.pStart as int, conn.inp.pEnd as int, conn.inp.bufSize as int, n);
    }
    hide ReceiveFits, Refused;
    if !conn.CanReceive(n) {
      conn.overflows := conn.overflows + 1;
      return false, bs;
    }
    ok, bs := conn.Read(n);
    if ok {
      TakeBytesRoundTrip(bs, conn.Incoming());
    }
  }

  method GetByte(conn: Conn) returns (ok: bool, b: byte)
    requires conn.Valid()
    modifies conn`asked, conn`overflows, conn.inp, conn.inp.data, conn.rx
    ensures Received(conn, ok, b, TakeByte(old(conn.Incoming())))
  {
    b := 0;
    var bs;
    ok, bs := Get(conn, 1);
    if ok {
      b := bs[0];
    }
  }

  method GetInt(conn: Conn, n: nat) returns (ok: bool, x: int)
    requires conn.Valid() && 0 < n
    modifies conn`asked, conn`overflows, conn.inp, conn.inp.data, conn.rx
    ensures Received(conn, ok, x, TakeInt(old(conn.Incoming()), n))
  {
    x := 0;
    var bs;
    ok, bs := Get(conn, n);
    if ok {
      assert bs[..n] == bs;
      x := TakeInt(bs, n).value;
    }
  }

  method GetInt16(conn: Conn) returns (ok: bool, x: int)
    requires conn.Valid()
    modifies conn`asked, conn`overflows, conn.inp, conn.inp.data, conn.rx
    ensures Received(conn, ok, x, TakeInt16(old(conn.Incoming())))
  {
    ok, x := GetInt(conn, 2);
  }

  method GetInt32(conn: Conn) returns (ok: bool, x: int)
    requires conn.Valid()
    modifies conn`asked, conn`overflows, conn.inp, conn.inp.data, conn.rx
    ensures Received(conn, ok, x, TakeInt32(old(conn.Incoming())))
  {
    ok, x := GetInt(conn, 4);
  }

  method GetInt64(conn: Conn) returns (ok: bool, x: int)
    requires conn.Valid()
    modifies conn`asked, conn`overflows, conn.inp, conn.inp.data, conn.rx
    ensures Received(conn, ok, x, TakeInt64(old(conn.Incoming())))
  {
    ok, x := GetInt(conn, 8);
  }

  method GetUint32(conn: Conn) returns (ok: bool, x: nat)
    requires conn.Valid()
    modifies conn`asked, conn`overflows, conn.inp, conn.inp.data, conn.rx
    ensures Received(conn, ok, x, TakeUint32(old(conn.Incoming())))
  {
    x := 0;
    var bs;
    ok, bs := Get(conn, 4);
    if ok {
      x := DecodeNat(bs);
    }
  }

  method GetString(conn: Conn) returns (ok: bool, s: CString)
    requires conn.Valid()
    modifies conn`asked, conn`overflows, conn.inp, conn.inp.data, conn.rx
    ensures Received(conn, ok, s, TakeString(old(conn.Incoming())))
  {
    hide TakeInt32;
    s := None;
    var cnt;
    ok, cnt := GetInt32(conn);
    if !ok {
      return;
    }
    if cnt == -1 {
      s := None;
    } else if cnt < 0 {
      ok := false;
    } else {
      var bs;
      ok, bs := Get(conn, cnt);
      s := Some(bs);
    }
  }

  method GetBlob(conn: Conn) returns (ok: bool, b: seq<byte>)
    requires conn.Valid()
    modifies conn`asked, conn`overflows, conn.inp, conn.inp.data, conn.rx
    ensures Received(conn, ok, b, TakeBlob(old(conn.Incoming())))
  {
    hide TakeInt32;
    b := [];
    var n;
    ok, n := GetInt32(conn);
    if !ok {
      return;
    }
    if n < 0 {
      return false, b;
    }
    ok, b := Get(conn, n);
  }

  // --------------------------------------------- lists, one element at a time

  /** The result of a loop that has collected `acc` and still has `r` to come. */
  function Prepend<T>(acc: seq<T>, r: Parse<seq<T>>): Parse<seq<T>> {
    if r.Fail? then Fail else Done(acc + r.value, r.rest)
  }

  lemma PrependEnds<T>(acc: seq<T>, r: Parse<seq<T>>, rest: seq<byte>)
    ensures Prepend([], r) == r
    ensures Prepend(acc, Done([], rest)) == Done(acc, rest)
  {
    assert r.Done? ==> [] + r.value == r.value;
    assert acc + [] == acc;
  }

  lemma PrependStep<T>(acc: seq<T>, x: T, r: Parse<seq<T>>)
    requires r.Done?
    ensures Prepend(acc, Done([x] + r.value, r.rest)) == Prepend(acc + [x], r)
  {
    assert acc + ([x] + r.value) == acc + [x] + r.value;
  }

  method GetType(conn: Conn) returns (ok: bool, t: Type)
    requires conn.Valid()
    modifies conn`asked, conn`overflows, conn.inp, conn.inp.data, conn.rx
    ensures Received(conn, ok, t, TakeType(old(conn.Incoming())))
    decreases |conn.Incoming()|, 1
  {
    hide TakeString, TakeSubs;
    t := Type(Int1, None, []);
    var code, name, subs;
    ok, code := GetByte(conn);
    if !ok {
      return;
    }
    ok, name := GetString(conn);
    if !ok {
      return;
    }
    ok, subs := GetSubs(conn, KindOf(code));
    t := Type(KindOf(code), name, subs);
  }

  method GetSubs(conn: Conn, kind: Kind) returns (ok: bool, ts: seq<Type>)
    requires conn.Valid()
    modifies conn`asked, conn`overflows, conn.inp, conn.inp.data, conn.rx
    ensures Received(conn, ok, ts, TakeSubs(kind, old(conn.Incoming())))
    decreases |conn.Incoming()|, 0
  {
    hide TakeTypes, TakeInt16;
    ok, ts := true, [];
    if Nested(kind) {
      var n;
      ok, n := GetInt16(conn);
      if !ok {
        return;
      }
      ok, ts := GetTypes(conn, if n < 0 then 0 else n);
    }
  }

  method GetTypes(conn: Conn, n: nat) returns (ok: bool, ts: seq<Type>)
    requires conn.Valid()
    modifies conn`asked, conn`overflows, conn.inp, conn.inp.data, conn.rx
    ensures Received(conn, ok, ts, TakeTypes(n, old(conn.Incoming())))
    decreases |conn.Incoming()|, 2
  {
    hide TakeType;
    ok, ts := true, [];
    ghost var all := TakeTypes(n, conn.Incoming());
    PrependEnds(ts, all, conn.Incoming());
    var i := 0;
    while i < n && ok
      invariant 0 <= i <= n
      invariant conn.Valid() && (conn.inp.data == old(conn.inp.data) || fresh(conn.inp.data))
      invariant ok ==> all == Prepend(ts, TakeTypes(n - i, conn.Incoming()))
      invariant conn.Trouble() >= old(conn.Trouble()) + (if ok || all.Fail? then 0 else 1)
      invariant ok ==> |conn.Incoming()| <= |old(conn.Incoming())|
      invariant all.Done? && Little(conn) ==> StaysSmall(conn)
    {
      var t;
      ok, t := GetType(conn);
      if ok {
        ghost var rest := TakeTypes(n - i - 1, conn.Incoming());
        if rest.Done? {
          PrependStep(ts, t, rest);
        }
        ts := ts + [t];
      }
      i := i + 1;
    }
    PrependEnds(ts, all, conn.Incoming());
  }

  // ------------------------------------------------------------------ values

  method GetValue(conn: Conn, t: Type) returns (ok: bool, v: Value)
    requires conn.Valid()
    modifies conn`asked, conn`overflows, conn.inp, conn.inp.data, conn.rx
    ensures Received(conn, ok, v, TakeValue(t, old(conn.Incoming())))
    decreases t, 3
  {
    hide TakeBody;
    v := Null;
    var tag;
    ok, tag := GetByte(conn);
    if !ok {
      return;
    }
    if tag != TAG_NULL {
      ok, v := GetBody(conn, t);
    }
  }

  /** The switch over the type of a value that is not null. */
  method GetBody(conn: Conn, t: Type) returns (ok: bool, v: Value)
    requires conn.Valid()
    modifies conn`asked, conn`overflows, conn.inp, conn.inp.data, conn.rx
    ensures Received(conn, ok, v, TakeBody(t, old(conn.Incoming())))
    decreases t, 2
  {
    hide TakeString, TakeBlob, TakeArray, TakeFields, TakeBytes;
    v := Null;
    if t.kind.Text? {
      var str;
      ok, str := GetString(conn);
      v := Str(str);
    } else if t.kind.Bytea? {
      var b;
      ok, b := GetBlob(conn);
      v := Blob(b);
    } else if t.kind.Array? {
      if t.subs == [] {
        return false, v;
      }
      ok, v := GetArray(conn, t.subs[0]);
    } else if t.kind.Udt? {
      var fields;
      ok, fields := GetFields(conn, t.subs);
      v := Row(fields);
    } else if t.kind.Other? {
      ok := false;
    } else {
      var b;
      ok, b := Get(conn, ScalarLength(t.kind));
      v := Scalar(b);
    }
  }

  method GetArray(conn: Conn, t: Type) returns (ok: bool, v: Value)
    requires conn.Valid()
    modifies conn`asked, conn`overflows, conn.inp, conn.inp.data, conn.rx
    ensures Received(conn, ok, v, TakeArray(t, old(conn.Incoming())))
    decreases t, 5
  {
    hide TakeInt32, TakeDims, TakeItems, ArraySize;
    v := Null;
    var ndims, dims;
    ok, ndims := GetInt32(conn);
    if !ok {
      return;
    }
    ok, dims := GetDims(conn, ItemCount(ndims));
    if !ok {
      return;
    }
    var size := ArraySize(dims);
    if size.None? || (size.value > 0 && !ItemKind(t.kind)) {
      return false, v;
    }
    var items;
    ok, items := GetItems(conn, t, ItemCount(size.value));
    v := Arr(dims, items);
  }

  method GetDims(conn: Conn, n: nat) returns (ok: bool, xs: seq<int>)
    requires conn.Valid()
    modifies conn`asked, conn`overflows, conn.inp, conn.inp.data, conn.rx
    ensures Received(conn, ok, xs, TakeDims(n, old(conn.Incoming())))
  {
    hide TakeInt32;
    ok, xs := true, [];
    ghost var all := TakeDims(n, conn.Incoming());
    PrependEnds(xs, all, conn.Incoming());
    var i := 0;
    while i < n && ok
      invariant 0 <= i <= n
      invariant conn.Valid() && (conn.inp.data == old(conn.inp.data) || fresh(conn.inp.data))
      invariant ok ==> all == Prepend(xs, TakeDims(n - i, conn.Incoming()))
      invariant conn.Trouble() >= old(conn.Trouble()) + (if ok || all.Fail? then 0 else 1)
      invariant ok ==> |conn.Incoming()| <= |old(conn.Incoming())|
      invariant all.Done? && Little(conn) ==> StaysSmall(conn)
    {
      var x;
      ok, x := GetInt32(conn);
      if ok {
        ghost var rest := TakeDims(n - i - 1, conn.Incoming());
        if rest.Done? {
          PrependStep(xs, x, rest);
        }
        xs := xs + [x];
      }
      i := i + 1;
    }
    PrependEnds(xs, all, conn.Incoming());
  }

  method GetItems(conn: Conn, t: Type, n: nat) returns (ok: bool, xs: seq<Value>)
    requires conn.Valid()
    modifies conn`asked, conn`overflows, conn.inp, conn.inp.data, conn.rx
    ensures Received(conn, ok, xs, TakeItems(t, n, old(conn.Incoming())))
    decreases t, 4
  {
    hide TakeValue;
    ok, xs := true, [];
    ghost var all := TakeItems(t, n, conn.Incoming());
    PrependEnds(xs, all, conn.Incoming());
    var i := 0;
    while i < n && ok
      invariant 0 <= i <= n
      invariant conn.Valid() && (conn.inp.data == old(conn.inp.data) || fresh(conn.inp.data))
      invariant ok ==> all == Prepend(xs, TakeItems(t, n - i, conn.Incoming()))
      invariant conn.Trouble() >= old(conn.Trouble()) + (if ok || all.Fail? then 0 else 1)
      invariant ok ==> |conn.Incoming()| <= |old(conn.Incoming())|
      invariant all.Done? && Little(conn) ==> StaysSmall(conn)
    {
      var x;
      ok, x := GetValue(conn, t);
      if ok {
        ghost var rest := TakeItems(t, n - i - 1, conn.Incoming());
        if rest.Done? {
          PrependStep(xs, x, rest);
        }
        xs := xs + [x];
      }
      i := i + 1;
    }
    PrependEnds(xs, all, conn.Incoming());
  }

  method GetFields(conn: Conn, ts: seq<Type>) returns (ok: bool, xs: seq<Value>)
    requires conn.Valid()
    modifies conn`asked, conn`overflows, conn.inp, conn.inp.data, conn.rx
    ensures Received(conn, ok, xs, TakeFields(ts, old(conn.Incoming())))
    decreases ts, 1
  {
    hide TakeValue;
    ok, xs := true, [];
    ghost var all := TakeFields(ts, conn.Incoming());
    PrependEnds(xs, all, conn.Incoming());
    var i := 0;
    while i < |ts| && ok
      invariant 0 <= i <= |ts|
      invariant conn.Valid() && (conn.inp.data == old(conn.inp.data) || fresh(conn.inp.data))
      invariant ok ==> all == Prepend(xs, TakeFields(ts[i..], conn.Incoming()))
      invariant conn.Trouble() >= old(conn.Trouble()) + (if ok || all.Fail? then 0 else 1)
      invariant ok ==> |conn.Incoming()| <= |old(conn.Incoming())|
      invariant all.Done? && Little(conn) ==> StaysSmall(conn)
    {
      var x;
      assert ts[i..][1..] == ts[i + 1..];
      ok, x := GetValue(conn, ts[i]);
      if ok {
        ghost var rest := TakeFields(ts[i + 1..], conn.Incoming());
        if rest.Done? {
          PrependStep(xs, x, rest);
        }
        xs := xs + [x];
      }
      i := i + 1;
    }
    PrependEnds(xs, all, conn.Incoming());
  }

  // ---------------------------------------------------------------- messages

  method GetArgument(conn: Conn) returns (ok: bool, a: Argument)
    requires conn.Valid()
    modifies conn`asked, conn`overflows, conn.inp, conn.inp.data, conn.rx
    ensures Received(conn, ok, a, TakeArgument(old(conn.Incoming())))
  {
    hide TakeString, TakeType, TakeValue;
    a := Argument(None, Type(Int1, None, []), Null);
    var name, typ, data;
    ok, name := GetString(conn);
    if !ok {
      return;
    }
    ok, typ := GetType(conn);
    if !ok {
      return;
    }
    ok, data := GetValue(conn, typ);
    if !ok {
      return;
    }
    a := Argument(name, typ, data);
  }

  method GetEach(conn: Conn, n: nat) returns (ok: bool, xs: seq<Argument>)
    requires conn.Valid()
    modifies conn`asked, conn`overflows, conn.inp, conn.inp.data, conn.rx
    ensures Received(conn, ok, xs, TakeEach(n, old(conn.Incoming())))
  {
    hide TakeArgument;
    ok, xs := true, [];
    ghost var all := TakeEach(n, conn.Incoming());
    PrependEnds(xs, all, conn.Incoming());
    var i := 0;
    while i < n && ok
      invariant 0 <= i <= n
      invariant conn.Valid() && (conn.inp.data == old(conn.inp.data) || fresh(conn.inp.data))
      invariant ok ==> all == Prepend(xs, TakeEach(n - i, conn.Incoming()))
      invariant conn.Trouble() >= old(conn.Trouble()) + (if ok || all.Fail? then 0 else 1)
      invariant ok ==> |conn.Incoming()| <= |old(conn.Incoming())|
      invariant all.Done? && Little(conn) ==> StaysSmall(conn)
    {
      var x;
      ok, x := GetArgument(conn);
      if ok {
        ghost var rest := TakeEach(n - i - 1, conn.Incoming());
        if rest.Done? {
          PrependStep(xs, x, rest);
        }
        xs := xs + [x];
      }
      i := i + 1;
    }
    PrependEnds(xs, all, conn.Incoming());
  }

  method GetArguments(conn: Conn) returns (ok: bool, args: seq<Argument>)
    requires conn.Valid()
    modifies conn`asked, conn`overflows, conn.inp, conn.inp.data, conn.rx
    ensures Received(conn, ok, args, TakeArguments(old(conn.Incoming())))
  {
    hide TakeInt32, TakeEach;
    args := [];
    var n;
    ok, n := GetInt32(conn);
    if !ok {
      return;
    }
    if n < 0 {
      return false, args;
    }
    ok, args := GetEach(conn, n);
  }

  method GetSignature(conn: Conn) returns (ok: bool, sig: Signature)
    requires conn.Valid()
    modifies conn`asked, conn`overflows, conn.inp, conn.inp.data, conn.rx
    ensures Received(conn, ok, sig, TakeSignature(old(conn.Incoming())))
  {
    hide TakeType, TakeInt32, TakeArguments;
    sig := Signature(Type(Int1, None, []), 0, []);
    var retType, retSet, args;
    ok, retType := GetType(conn);
    if !ok {
      return;
    }
    ok, retSet := GetInt32(conn);
    if !ok {
      return;
    }
    ok, args := GetArguments(conn);
    if !ok {
      return;
    }
    sig := Signature(retType, retSet, args);
  }

  method GetCallTail(conn: Conn) returns (ok: bool, t: CallTail)
    requires conn.Valid()
    modifies conn`asked, conn`overflows, conn.inp, conn.inp.data, conn.rx
    ensures Received(conn, ok, t, TakeCallTail(old(conn.Incoming())))
  {
    hide TakeInt32, TakeUint32, TakeSignature;
    t := CallTail(0, 0, 0, Signature(Type(Int1, None, []), 0, []));
    var logLevel, objectId, hasChanged, sig;
    ok, logLevel := GetInt32(conn);
    if !ok {
      return;
    }
    ok, objectId := GetUint32(conn);
    if !ok {
      return;
    }
    ok, hasChanged := GetInt32(conn);
    if !ok {
      return;
    }
    ok, sig := GetSignature(conn);
    if !ok {
      return;
    }
    t := CallTail(logLevel, objectId, hasChanged, sig);
  }

  method GetCall(conn: Conn) returns (ok: bool, m: Message)
    requires conn.Valid()
    modifies conn`asked, conn`overflows, conn.inp, conn.inp.data, conn.rx
    ensures Received(conn, ok, m, TakeCall(old(conn.Incoming())))
  {
    hide TakeString, TakeCallTail;
    m := Ping;
    var name, src, serverenc, t;
    ok, name := GetString(conn);
    if !ok {
      return;
    }
    ok, src := GetString(conn);
    if !ok {
      return;
    }
    ok, serverenc := GetString(conn);
    if !ok {
      return;
    }
    ok, t := GetCallTail(conn);
    if !ok {
      return;
    }
    m := CallReq(name, src, serverenc, t.logLevel, t.objectId, t.hasChanged,
                 t.sig.retType, t.sig.retSet, t.sig.args);
  }

  method GetColumn(conn: Conn) returns (ok: bool, c: Column)
    requires conn.Valid()
    modifies conn`asked, conn`overflows, conn.inp, conn.inp.data, conn.rx
    ensures Received(conn, ok, c, TakeColumn(old(conn.Incoming())))
  {
    hide TakeString, TakeType;
    c := Column(Type(Int1, None, []), None);
    var typ, name;
    ok, typ := GetType(conn);
    if !ok {
      return;
    }
    ok, name := GetString(conn);
    if !ok {
      return;
    }
    c := Column(typ, name);
  }

  method GetColumns(conn: Conn, n: nat) returns (ok: bool, xs: seq<Column>)
    requires conn.Valid()
    modifies conn`asked, conn`overflows, conn.inp, conn.inp.data, conn.rx
    ensures Received(conn, ok, xs, TakeColumns(n, old(conn.Incoming())))
  {
    hide TakeColumn;
    ok, xs := true, [];
    ghost var all := TakeColumns(n, conn.Incoming());
    PrependEnds(xs, all, conn.Incoming());
    var i := 0;
    while i < n && ok
      invariant 0 <= i <= n
      invariant conn.Valid() && (conn.inp.data == old(conn.inp.data) || fresh(conn.inp.data))
      invariant ok ==> all == Prepend(xs, TakeColumns(n - i, conn.Incoming()))
      invariant conn.Trouble() >= old(conn.Trouble()) + (if ok || all.Fail? then 0 else 1)
      invariant ok ==> |conn.Incoming()| <= |old(conn.Incoming())|
      invariant all.Done? && Little(conn) ==> StaysSmall(conn)
    {
      var x;
      ok, x := GetColumn(conn);
      if ok {
        ghost var rest := TakeColumns(n - i - 1, conn.Incoming());
        if rest.Done? {
          PrependStep(xs, x, rest);
        }
        xs := xs + [x];
      }
      i := i + 1;
    }
    PrependEnds(xs, all, conn.Incoming());
  }

  method GetRows(conn: Conn, ts: seq<Type>, n: nat) returns (ok: bool, xs: seq<seq<Value>>)
    requires conn.Valid()
    modifies conn`asked, conn`overflows, conn.inp, conn.inp.data, conn.rx
    ensures Received(conn, ok, xs, TakeRows(ts, n, old(conn.Incoming())))
  {
    hide TakeFields;
    ok, xs := true, [];
    ghost var all := TakeRows(ts, n, conn.Incoming());
    PrependEnds(xs, all, conn.Incoming());
    var i := 0;
    while i < n && ok
      invariant 0 <= i <= n
      invariant conn.Valid() && (conn.inp.data == old(conn.inp.data) || fresh(conn.inp.data))
      invariant ok ==> all == Prepend(xs, TakeRows(ts, n - i, conn.Incoming()))
      invariant conn.Trouble() >= old(conn.Trouble()) + (if ok || all.Fail? then 0 else 1)
      invariant ok ==> |conn.Incoming()| <= |old(conn.Incoming())|
      invariant all.Done? && Little(conn) ==> StaysSmall(conn)
    {
      var x;
      ok, x := GetFields(conn, ts);
      if ok {
        ghost var rest := TakeRows(ts, n - i - 1, conn.Incoming());
        if rest.Done? {
          PrependStep(xs, x, rest);
        }
        xs := xs + [x];
      }
      i := i + 1;
    }
    PrependEnds(xs, all, conn.Incoming());
  }

  method GetTable(conn: Conn) returns (ok: bool, m: Message)
    requires conn.Valid()
    modifies conn`asked, conn`overflows, conn.inp, conn.inp.data, conn.rx
    ensures Received(conn, ok, m, TakeTable(old(conn.Incoming())))
  {
    hide TakeUint32, TakeColumns, TakeRows;
    m := Ping;
    var rows, ncols, cols, data;
    ok, rows := GetUint32(conn);
    if !ok {
      return;
    }
    ok, ncols := GetUint32(conn);
    if !ok {
      return;
    }
    ok, cols := GetColumns(conn, ncols);
    if !ok {
      return;
    }
    ok, data := GetRows(conn, ColumnTypes(cols), if cols == [] then 0 else rows);
    if !ok {
      return;
    }
    m := Result(rows, cols, data);
  }

  method GetError(conn: Conn) returns (ok: bool, e: Error)
    requires conn.Valid()
    modifies conn`asked, conn`overflows, conn.inp, conn.inp.data, conn.rx
    ensures Received(conn, ok, e, TakeError(old(conn.Incoming())))
  {
    hide TakeString;
    e := Error(None, None);
    var message, stacktrace;
    ok, message := GetString(conn);
    if !ok {
      return;
    }
    ok, stacktrace := GetString(conn);
    if !ok {
      return;
    }
    e := Error(message, stacktrace);
  }

  method GetTrailer(conn: Conn) returns (ok: bool, pending: Option<Error>)
    requires conn.Valid()
    modifies conn`asked, conn`overflows, conn.inp, conn.inp.data, conn.rx
    ensures Received(conn, ok, pending, TakeTrailer(old(conn.Incoming())))
  {
    hide TakeError;
    pending := None;
    var exc;
    ok, exc := GetByte(conn);
    if !ok {
      return;
    }
    if exc == 'E' as byte {
      var e;
      ok, e := GetError(conn);
      pending := Some(e);
    }
  }

  method GetResult(conn: Conn) returns (ok: bool, m: Message)
    requires conn.Valid()
    modifies conn`asked, conn`overflows, conn.inp, conn.inp.data, conn.rx
    ensures Received(conn, ok, m, TakeResult(old(conn.Incoming())))
  {
    hide TakeTable, TakeTrailer;
    m := Ping;
    var table, pending;
    ok, table := GetTable(conn);
    if !ok {
      return;
    }
    ok, pending := GetTrailer(conn);
    if !ok {
      return;
    }
    m := if pending.Some? then Exception(pending.value) else table;
  }

  method GetNote(conn: Conn) returns (ok: bool, note: (int, CString))
    requires conn.Valid()
    modifies conn`asked, conn`overflows, conn.inp, conn.inp.data, conn.rx
    ensures Received(conn, ok, note, TakeNote(old(conn.Incoming())))
  {
    hide TakeInt32, TakeString;
    note := (0, None);
    var n, text;
    ok, n := GetInt32(conn);
    if !ok {
      return;
    }
    ok, text := GetString(conn);
    if !ok {
      return;
    }
    note := (n, text);
  }

  method GetPing(conn: Conn, version: seq<byte>) returns (ok: bool, m: Message)
    requires conn.Valid()
    modifies conn`asked, conn`overflows, conn.inp, conn.inp.data, conn.rx
    ensures Received(conn, ok, m, TakePing(version, old(conn.Incoming())))
  {
    hide TakeString;
    m := Ping;
    var v;
    ok, v := GetString(conn);
    if !ok {
      return;
    }
    ok := v.Some? && version <= v.value;
  }

  method GetPair(conn: Conn) returns (ok: bool, m: Message)
    requires conn.Valid()
    modifies conn`asked, conn`overflows, conn.inp, conn.inp.data, conn.rx
    ensures Received(conn, ok, m, TakePair(old(conn.Incoming())))
  {
    hide TakeByte;
    m := Ping;
    var action, exception;
    ok, action := GetByte(conn);
    if !ok {
      return;
    }
    ok, exception := GetByte(conn);
    if !ok {
      return;
    }
    m := Subtransaction(action, exception);
  }

  method GetSqlBody(conn: Conn, sqlType: int) returns (ok: bool, m: Message)
    requires conn.Valid()
    modifies conn`asked, conn`overflows, conn.inp, conn.inp.data, conn.rx
    ensures Received(conn, ok, m, TakeSqlBody(sqlType, old(conn.Incoming())))
  {
    hide TakeInt64, TakeString, TakeArguments;
    m := Ping;
    if sqlType == SQL_STATEMENT {
      var limit, text;
      ok, limit := GetInt64(conn);
      if !ok {
        return;
      }
      ok, text := GetString(conn);
      m := Statement(limit, text);
    } else if sqlType == SQL_PREPARE {
      var args, text;
      ok, args := GetArguments(conn);
      if !ok {
        return;
      }
      ok, text := GetString(conn);
      m := Prepare(args, text);
    } else if sqlType == SQL_UNPREPARE {
      var pplan;
      ok, pplan := GetInt64(conn);
      m := Unprepare(pplan);
    } else if sqlType == SQL_PEXECUTE {
      ok, m := GetExecute(conn);
    } else {
      ok := false;
    }
  }

  method GetExecute(conn: Conn) returns (ok: bool, m: Message)
    requires conn.Valid()
    modifies conn`asked, conn`overflows, conn.inp, conn.inp.data, conn.rx
    ensures Received(conn, ok, m, TakeSqlBody(SQL_PEXECUTE, old(conn.Incoming())))
  {
    hide TakeInt64, TakeArguments;
    m := Ping;
    var args, limit, pplan;
    ok, args := GetArguments(conn);
    if !ok {
      return;
    }
    ok, limit := GetInt64(conn);
    if !ok {
      return;
    }
    ok, pplan := GetInt64(conn);
    if !ok {
      return;
    }
    m := Execute(args, limit, pplan);
  }

  method GetSql(conn: Conn) returns (ok: bool, m: Message)
    requires conn.Valid()
    modifies conn`asked, conn`overflows, conn.inp, conn.inp.data, conn.rx
    ensures Received(conn, ok, m, TakeSql(old(conn.Incoming())))
  {
    hide TakeInt32, TakeSqlBody;
    m := Ping;
    var sqlType;
    ok, sqlType := GetInt32(conn);
    if !ok {
      return;
    }
    ok, m := GetSqlBody(conn, sqlType);
  }

  method GetMessageBody(conn: Conn, tag: byte, version: seq<byte>) returns (ok: bool, m: Message)
    requires conn.Valid()
    modifies conn`asked, conn`overflows, conn.inp, conn.inp.data, conn.rx
    ensures Received(conn, ok, m, TakeMessageBody(tag, version, old(conn.Incoming())))
  {
    hide TakePing, TakeCall, TakeResult, TakeError, TakeNote, TakeSql, TakeBlob, TakePair, TakeInt16;
    m := Ping;
    if tag == 'P' as byte {
      ok, m := GetPing(conn, version);
    } else if tag == 'C' as byte {
      ok, m := GetCall(conn);
    } else if tag == 'R' as byte {
      ok, m := GetResult(conn);
    } else if tag == 'E' as byte {
      var e;
      ok, e := GetError(conn);
      m := Exception(e);
    } else if tag == 'L' as byte {
      var n;
      ok, n := GetNote(conn);
      m := Log(n.0, n.1);
    } else if tag == 'Q' as byte {
      var n;
      ok, n := GetNote(conn);
      m := Quote(n.0, n.1);
    } else if tag == 'O' as byte {
      var n;
      ok, n := GetNote(conn);
      m := QuoteResult(n.0, n.1);
    } else if tag == 'S' as byte {
      ok, m := GetSql(conn);
    } else if tag == 'W' as byte {
      var b;
      ok, b := GetBlob(conn);
      m := Raw(b);
    } else if tag == 'N' as byte {
      ok, m := GetPair(conn);
    } else if tag == 'Z' as byte {
      var n;
      ok, n := GetInt16(conn);
      m := SubtransactionResult(n);
    } else {
      ok := false;
    }
  }

  /** plcontainer_channel_receive: the next message of the stream if it is one in the mask. */
  method Receive(conn: Conn, mask: set<byte>, version: seq<byte>) returns (ok: bool, m: Message)
    requires conn.Valid()
    modifies conn`asked, conn`overflows, conn.inp, conn.inp.data, conn.rx
    ensures Received(conn, ok, m, Decode(mask, version, old(conn.Incoming())))
    ensures conn.Willing() && Decode(mask, version, old(conn.Incoming())).Done? && Little(conn) ==> ok
  {
    hide TakeByte, TakeMessageBody;
    m := Ping;
    var tag;
    ok, tag := GetByte(conn);
    if !ok {
      if conn.Willing() {
        conn.WillingRefusesNothing();
      }
      return;
    }
    if tag !in mask {
      return false, m;
    }
    ok, m := GetMessageBody(conn, tag, version);
    if conn.Willing() {
      conn.WillingRefusesNothing();
    }
  }
}
