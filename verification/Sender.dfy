/** The send functions of src/common/comm_channel.c over the buffered stream: each one
    appends exactly the bytes of the pure encoder, or fails.

    A request at which the source would overflow an int, as module ByteStream says exactly, fails.
 */
module Sender {
  import opened Basics
  import opened ByteStream
  import opened Codec

  /** A send since the old state added these bytes to the outgoing stream, or failed because the
      environment refused something or a request would have overflown an int; the latter does not happen
      to small messages. */
  twostate predicate Sent(conn: Conn, ok: bool, bs: seq<byte>)
    requires old(conn.Valid())
    reads conn, conn.inp, conn.out, conn.out.data, conn.tx
  {
    && conn.Valid() && (conn.out.data == old(conn.out.data) || fresh(conn.out.data))
    && (ok ==> conn.Outgoing() == old(conn.Outgoing()) + bs)
    && conn.Trouble() >= old(conn.Trouble()) + (if ok then 0 else 1)
    && (old(conn.Modest()) && |bs| <= MAX_CHUNK ==> StaysSmall(conn))
  }

  method Put(conn: Conn, bs: seq<byte>) returns (ok: bool)
    requires conn.Valid()
    modifies conn`asked, conn`overflows, conn.out, conn.out.data, conn.tx
    ensures Sent(conn, ok, bs)
  {
    if conn.Modest() && |bs| <= MAX_CHUNK {
      SmallRequestsFit(conn.out.pStart as int, conn.out.pEnd as int, conn.out.bufSize as int, |bs|);
    }
    hide AppendFits, Refused;
    if !conn.CanAppend(|bs|) {
      conn.overflows := conn.overflows + 1;
      return false;
    }
    ok := conn.Append(bs);
  }

  method SendString(conn: Conn, s: CString) returns (ok: bool)
    requires conn.Valid() && WellFormedString(s)
    modifies conn`asked, conn`overflows, conn.out, conn.out.data, conn.tx
    ensures Sent(conn, ok, EncodeString(s))
  {
    ghost var before := conn.Outgoing();
    if s.None? {
      ok := Put(conn, EncodeInt32(-1));
    } else {
      ok := Put(conn, EncodeInt32(|s.value|));
      if ok && |s.value| > 0 {
        ok := Put(conn, s.value);
        Assoc(before, EncodeInt32(|s.value|), s.value);
      }
    }
  }

  method SendType(conn: Conn, t: Type) returns (ok: bool)
    requires conn.Valid() && WellFormedType(t)
    modifies conn`asked, conn`overflows, conn.out, conn.out.data, conn.tx
    ensures Sent(conn, ok, EncodeType(t))
    decreases t, 1
  {
    hide EncodeString, EncodeSubs;
    ghost var before := conn.Outgoing();
    var ok1 := Put(conn, [KindCode(t.kind)]);
    var ok2 := SendString(conn, t.name);
    var ok3 := SendSubs(conn, t);
    Assoc(before, [KindCode(t.kind)], EncodeString(t.name) + EncodeSubs(t));
    Assoc(before + [KindCode(t.kind)], EncodeString(t.name), EncodeSubs(t));
    ok := ok1 && ok2 && ok3;
  }

  method SendSubs(conn: Conn, t: Type) returns (ok: bool)
    requires conn.Valid() && WellFormedType(t)
    modifies conn`asked, conn`overflows, conn.out, conn.out.data, conn.tx
    ensures Sent(conn, ok, EncodeSubs(t))
    decreases t, 0
  {
    ok := true;
    ghost var before := conn.Outgoing();
    if Nested(t.kind) {
      ok := Put(conn, EncodeInt16(|t.subs|));
      if ok {
        ok := SendTypes(conn, t.subs);
        Assoc(before, EncodeInt16(|t.subs|), EncodeTypes(t.subs));
      }
    }
  }

  method SendTypes(conn: Conn, ts: seq<Type>) returns (ok: bool)
    requires conn.Valid() && forall i | 0 <= i < |ts| :: WellFormedType(ts[i])
    modifies conn`asked, conn`overflows, conn.out, conn.out.data, conn.tx
    ensures Sent(conn, ok, EncodeTypes(ts))
    decreases ts, 2
  {
    hide EncodeType, WellFormedType;
    ok := true;
    ghost var before := conn.Outgoing();
    var i := 0;
    while i < |ts| && ok
      invariant 0 <= i <= |ts|
      invariant conn.Valid() && (conn.out.data == old(conn.out.data) || fresh(conn.out.data))
      invariant ok ==> conn.Outgoing() + EncodeTypes(ts[i..]) == before + EncodeTypes(ts)
      invariant conn.Trouble() >= old(conn.Trouble()) + (if ok then 0 else 1)
      invariant old(conn.Modest()) && |EncodeTypes(ts)| <= MAX_CHUNK ==>
                  StaysSmall(conn) && |EncodeTypes(ts[i..])| <= MAX_CHUNK
    {
      Assoc(conn.Outgoing(), EncodeType(ts[i]), EncodeTypes(ts[i + 1..]));
      assert ts[i..][1..] == ts[i + 1..];
      ok := SendType(conn, ts[i]);
      i := i + 1;
    }
  }

  method SendValue(conn: Conn, t: Type, v: Value) returns (ok: bool)
    requires conn.Valid() && WellFormedValue(t, v)
    modifies conn`asked, conn`overflows, conn.out, conn.out.data, conn.tx
    ensures Sent(conn, ok, EncodeValue(t, v))
    decreases t, 3
  {
    if v.Null? {
      ok := Put(conn, [TAG_NULL]);
    } else {
      ghost var before := conn.Outgoing();
      var ok1 := Put(conn, [TAG_DATA]);
      var ok2 := SendBody(conn, t, v);
      Assoc(before, [TAG_DATA], EncodeBody(t, v));
      ok := ok1 && ok2;
    }
  }

  /** The switch over the type of a value that is not null. */
  method SendBody(conn: Conn, t: Type, v: Value) returns (ok: bool)
    requires conn.Valid() && WellFormedValue(t, v) && !v.Null?
    modifies conn`asked, conn`overflows, conn.out, conn.out.data, conn.tx
    ensures Sent(conn, ok, EncodeBody(t, v))
    decreases t, 2
  {
    if t.kind.Text? {
      ok := SendString(conn, v.s);
    } else if t.kind.Bytea? {
      ok := SendBlob(conn, v.bytes);
    } else if t.kind.Array? {
      ok := SendArray(conn, t.subs[0], v.dims, v.items);
    } else if t.kind.Udt? {
      ok := SendFields(conn, t.subs, v.fields);
    } else {
      ok := Put(conn, v.bytes);
    }
  }

  method SendBlob(conn: Conn, b: seq<byte>) returns (ok: bool)
    requires conn.Valid() && |b| <= INT_MAX
    modifies conn`asked, conn`overflows, conn.out, conn.out.data, conn.tx
    ensures Sent(conn, ok, EncodeInt32(|b|) + b)
  {
    ghost var before := conn.Outgoing();
    var ok1 := Put(conn, EncodeInt32(|b|));
    var ok2 := Put(conn, b);
    Assoc(before, EncodeInt32(|b|), b);
    ok := ok1 && ok2;
  }

  /** A raw message goes out byte by byte. */
  method SendRaw(conn: Conn, b: seq<byte>) returns (ok: bool)
    requires conn.Valid() && |b| <= INT_MAX
    modifies conn`asked, conn`overflows, conn.out, conn.out.data, conn.tx
    ensures Sent(conn, ok, EncodeInt32(|b|) + b)
  {
    ghost var before := conn.Outgoing();
    ok := Put(conn, EncodeInt32(|b|));
    ghost var header := before + EncodeInt32(|b|);
    Assoc(before, EncodeInt32(|b|), b);
    for i := 0 to |b|
      invariant conn.Valid() && (conn.out.data == old(conn.out.data) || fresh(conn.out.data))
      invariant ok ==> conn.Outgoing() + b[i..] == header + b
      invariant conn.Trouble() >= old(conn.Trouble()) + (if ok then 0 else 1)
      invariant old(conn.Modest()) && |EncodeInt32(|b|) + b| <= MAX_CHUNK ==>
                  StaysSmall(conn) && |b[i..]| <= MAX_CHUNK
    {
      Assoc(conn.Outgoing(), [b[i]], b[i + 1..]);
      assert [b[i]] + b[i + 1..] == b[i..];
      var ok1 := Put(conn, [b[i]]);
      ok := ok && ok1;
    }
  }

  method SendArray(conn: Conn, t: Type, dims: seq<int>, items: seq<Value>) returns (ok: bool)
    requires conn.Valid() && WellFormedDims(dims) && WellFormedItems(t, items)
    modifies conn`asked, conn`overflows, conn.out, conn.out.data, conn.tx
    ensures Sent(conn, ok, EncodeInt32(|dims|) + (EncodeDims(dims) + EncodeItems(t, items)))
    decreases t, 5
  {
    ghost var before := conn.Outgoing();
    ghost var (a, b, c) := (EncodeInt32(|dims|), EncodeDims(dims), EncodeItems(t, items));
    var ok1 := Put(conn, EncodeInt32(|dims|));
    var ok2 := SendDims(conn, dims);
    ok := ok1 && ok2;
    if ok {
      ok := SendItems(conn, t, items);
      Assoc(before, a, b + c);
      Assoc(before + a, b, c);
    }
  }

  method SendDims(conn: Conn, dims: seq<int>) returns (ok: bool)
    requires conn.Valid() && WellFormedDims(dims)
    modifies conn`asked, conn`overflows, conn.out, conn.out.data, conn.tx
    ensures Sent(conn, ok, EncodeDims(dims))
  {
    ok := true;
    ghost var before := conn.Outgoing();
    for i := 0 to |dims|
      invariant conn.Valid() && (conn.out.data == old(conn.out.data) || fresh(conn.out.data))
      invariant ok ==> conn.Outgoing() + EncodeDims(dims[i..]) == before + EncodeDims(dims)
      invariant conn.Trouble() >= old(conn.Trouble()) + (if ok then 0 else 1)
      invariant old(conn.Modest()) && |EncodeDims(dims)| <= MAX_CHUNK ==>
                  StaysSmall(conn) && |EncodeDims(dims[i..])| <= MAX_CHUNK
    {
      Assoc(conn.Outgoing(), EncodeInt32(dims[i]), EncodeDims(dims[i + 1..]));
      assert dims[i..][1..] == dims[i + 1..];
      var ok1 := Put(conn, EncodeInt32(dims[i]));
      ok := ok && ok1;
    }
  }

  method SendItems(conn: Conn, t: Type, items: seq<Value>) returns (ok: bool)
    requires conn.Valid() && WellFormedItems(t, items)
    modifies conn`asked, conn`overflows, conn.out, conn.out.data, conn.tx
    ensures Sent(conn, ok, EncodeItems(t, items))
    decreases t, 4
  {
    ok := true;
    ghost var before := conn.Outgoing();
    var i := 0;
    while i < |items| && ok
      invariant 0 <= i <= |items|
      invariant conn.Valid() && (conn.out.data == old(conn.out.data) || fresh(conn.out.data))
      invariant ok ==> conn.Outgoing() + EncodeItems(t, items[i..]) == before + EncodeItems(t, items)
      invariant conn.Trouble() >= old(conn.Trouble()) + (if ok then 0 else 1)
      invariant old(conn.Modest()) && |EncodeItems(t, items)| <= MAX_CHUNK ==>
                  StaysSmall(conn) && |EncodeItems(t, items[i..])| <= MAX_CHUNK
    {
      Assoc(conn.Outgoing(), EncodeValue(t, items[i]), EncodeItems(t, items[i + 1..]));
      assert items[i..][1..] == items[i + 1..];
      ok := SendValue(conn, t, items[i]);
      i := i + 1;
    }
  }

  method SendFields(conn: Conn, ts: seq<Type>, vs: seq<Value>) returns (ok: bool)
    requires conn.Valid() && WellFormedFields(ts, vs)
    modifies conn`asked, conn`overflows, conn.out, conn.out.data, conn.tx
    ensures Sent(conn, ok, EncodeFields(ts, vs))
    decreases ts, 1
  {
    ok := true;
    ghost var before := conn.Outgoing();
    var i := 0;
    while i < |ts| && ok
      invariant 0 <= i <= |ts|
      invariant conn.Valid() && (conn.out.data == old(conn.out.data) || fresh(conn.out.data))
      invariant ok ==> conn.Outgoing() + EncodeFields(ts[i..], vs[i..]) == before + EncodeFields(ts, vs)
      invariant conn.Trouble() >= old(conn.Trouble()) + (if ok then 0 else 1)
      invariant old(conn.Modest()) && |EncodeFields(ts, vs)| <= MAX_CHUNK ==>
                  StaysSmall(conn) && |EncodeFields(ts[i..], vs[i..])| <= MAX_CHUNK
    {
      Assoc(conn.Outgoing(), EncodeValue(ts[i], vs[i]), EncodeFields(ts[i + 1..], vs[i + 1..]));
      assert ts[i..][1..] == ts[i + 1..] && vs[i..][1..] == vs[i + 1..];
      ok := SendValue(conn, ts[i], vs[i]);
      i := i + 1;
    }
  }

  // ---------------------------------------------------------------- messages

  method SendArgument(conn: Conn, a: Argument) returns (ok: bool)
    requires conn.Valid() && WellFormedArgument(a)
    modifies conn`asked, conn`overflows, conn.out, conn.out.data, conn.tx
    ensures Sent(conn, ok, EncodeArgument(a))
  {
    hide EncodeString, EncodeType, EncodeValue;
    ghost var before := conn.Outgoing();
    ghost var (n, t, d) := (EncodeString(a.name), EncodeType(a.typ), EncodeValue(a.typ, a.data));
    var ok1 := SendString(conn, a.name);
    var ok2 := SendType(conn, a.typ);
    var ok3 := SendValue(conn, a.typ, a.data);
    Assoc(before, n, t + d);
    Assoc(before + n, t, d);
    ok := ok1 && ok2 && ok3;
  }

  method SendArguments(conn: Conn, args: seq<Argument>) returns (ok: bool)
    requires conn.Valid() && WellFormedArguments(args)
    modifies conn`asked, conn`overflows, conn.out, conn.out.data, conn.tx
    ensures Sent(conn, ok, EncodeArguments(args))
  {
    hide EncodeArgument, Refused;
    ghost var before := conn.Outgoing();
    ok := Put(conn, EncodeInt32(|args|));
    ghost var header := before + EncodeInt32(|args|);
    Assoc(before, EncodeInt32(|args|), EncodeEach(args));
    for i := 0 to |args|
      invariant conn.Valid() && (conn.out.data == old(conn.out.data) || fresh(conn.out.data))
      invariant ok ==> conn.Outgoing() + EncodeEach(args[i..]) == header + EncodeEach(args)
      invariant conn.Trouble() >= old(conn.Trouble()) + (if ok then 0 else 1)
      invariant old(conn.Modest()) && |EncodeArguments(args)| <= MAX_CHUNK ==>
                  StaysSmall(conn) && |EncodeEach(args[i..])| <= MAX_CHUNK
    {
      Assoc(conn.Outgoing(), EncodeArgument(args[i]), EncodeEach(args[i + 1..]));
      assert args[i..][1..] == args[i + 1..];
      var ok1 := SendArgument(conn, args[i]);
      ok := ok && ok1;
    }
  }

  method SendNote(conn: Conn, n: int, text: CString) returns (ok: bool)
    requires conn.Valid() && IsInt32(n) && WellFormedString(text)
    modifies conn`asked, conn`overflows, conn.out, conn.out.data, conn.tx
    ensures Sent(conn, ok, EncodeNote(n, text))
  {
    ghost var before := conn.Outgoing();
    var ok1 := Put(conn, EncodeInt32(n));
    var ok2 := SendString(conn, text);
    Assoc(before, EncodeInt32(n), EncodeString(text));
    ok := ok1 && ok2;
  }

  method SendError(conn: Conn, e: Error) returns (ok: bool)
    requires conn.Valid() && WellFormedError(e)
    modifies conn`asked, conn`overflows, conn.out, conn.out.data, conn.tx
    ensures Sent(conn, ok, EncodeError(e))
  {
    ghost var before := conn.Outgoing();
    var ok1 := SendString(conn, e.message);
    var ok2 := SendString(conn, e.stacktrace);
    Assoc(before, EncodeString(e.message), EncodeString(e.stacktrace));
    ok := ok1 && ok2;
  }

  method SendSignature(conn: Conn, m: Message) returns (ok: bool)
    requires conn.Valid() && m.CallReq? && WellFormedCall(m)
    modifies conn`asked, conn`overflows, conn.out, conn.out.data, conn.tx
    ensures Sent(conn, ok, EncodeSignature(m))
  {
    hide EncodeType, EncodeInt32, EncodeArguments;
    ghost var before := conn.Outgoing();
    ghost var (t, r, a) := (EncodeType(m.retType), EncodeInt32(m.retSet), EncodeArguments(m.args));
    var ok1 := SendType(conn, m.retType);
    var ok2 := Put(conn, EncodeInt32(m.retSet));
    var ok3 := SendArguments(conn, m.args);
    Assoc(before, t, r + a);
    Assoc(before + t, r, a);
    ok := ok1 && ok2 && ok3;
  }

  method SendCallTail(conn: Conn, m: Message) returns (ok: bool)
    requires conn.Valid() && m.CallReq? && WellFormedCall(m)
    modifies conn`asked, conn`overflows, conn.out, conn.out.data, conn.tx
    ensures Sent(conn, ok, EncodeCallTail(m))
  {
    hide EncodeInt32, EncodeUint32, EncodeSignature, Refused;
    ghost var before := conn.Outgoing();
    ghost var (l, o, h, s) :=
      (EncodeInt32(m.logLevel), EncodeUint32(m.objectId), EncodeInt32(m.hasChanged), EncodeSignature(m));
    var ok1 := Put(conn, EncodeInt32(m.logLevel));
    var ok2 := Put(conn, EncodeUint32(m.objectId));
    var ok3 := Put(conn, EncodeInt32(m.hasChanged));
    var ok4 := SendSignature(conn, m);
    Assoc(before, l, o + (h + s));
    Assoc(before + l, o, h + s);
    Assoc(before + l + o, h, s);
    ok := ok1 && ok2 && ok3 && ok4;
  }

  method SendCallHead(conn: Conn, m: Message) returns (ok: bool)
    requires conn.Valid() && m.CallReq? && WellFormedCall(m)
    modifies conn`asked, conn`overflows, conn.out, conn.out.data, conn.tx
    ensures Sent(conn, ok, EncodeString(m.name) + EncodeString(m.src) + EncodeString(m.serverenc))
  {
    hide EncodeString, Refused;
    ghost var before := conn.Outgoing();
    ghost var (n, s, e) := (EncodeString(m.name), EncodeString(m.src), EncodeString(m.serverenc));
    var ok1 := SendString(conn, m.name);
    var ok2 := SendString(conn, m.src);
    var ok3 := SendString(conn, m.serverenc);
    Assoc(before, n + s, e);
    Assoc(before, n, s);
    ok := ok1 && ok2 && ok3;
  }

  method SendCall(conn: Conn, m: Message) returns (ok: bool)
    requires conn.Valid() && m.CallReq? && WellFormedCall(m)
    modifies conn`asked, conn`overflows, conn.out, conn.out.data, conn.tx
    ensures Sent(conn, ok, EncodeCall(m))
  {
    hide EncodeString, EncodeCallTail, Refused;
    ghost var before := conn.Outgoing();
    ghost var (n, s, e, t) :=
      (EncodeString(m.name), EncodeString(m.src), EncodeString(m.serverenc), EncodeCallTail(m));
    var ok1 := SendCallHead(conn, m);
    var ok2 := SendCallTail(conn, m);
    Assoc(before, n + s + e, t);
    assert n + s + e + t == n + (s + (e + t));
    ok := ok1 && ok2;
  }

  method SendColumns(conn: Conn, cols: seq<Column>) returns (ok: bool)
    requires conn.Valid() && forall i | 0 <= i < |cols| :: WellFormedColumn(cols[i])
    modifies conn`asked, conn`overflows, conn.out, conn.out.data, conn.tx
    ensures Sent(conn, ok, EncodeColumns(cols))
  {
    hide EncodeType, EncodeString, Refused;
    ok := true;
    ghost var before := conn.Outgoing();
    for i := 0 to |cols|
      invariant conn.Valid() && (conn.out.data == old(conn.out.data) || fresh(conn.out.data))
      invariant ok ==> conn.Outgoing() + EncodeColumns(cols[i..]) == before + EncodeColumns(cols)
      invariant conn.Trouble() >= old(conn.Trouble()) + (if ok then 0 else 1)
      invariant old(conn.Modest()) && |EncodeColumns(cols)| <= MAX_CHUNK ==>
                  StaysSmall(conn) && |EncodeColumns(cols[i..])| <= MAX_CHUNK
    {
      ghost var now := conn.Outgoing();
      assert WellFormedColumn(cols[i]);
      Assoc(now, EncodeColumn(cols[i]), EncodeColumns(cols[i + 1..]));
      assert cols[i..][1..] == cols[i + 1..];
      var ok1 := SendType(conn, cols[i].typ);
      var ok2 := SendString(conn, cols[i].name);
      Assoc(now, EncodeType(cols[i].typ), EncodeString(cols[i].name));
      ok := ok && ok1 && ok2;
    }
  }

  method SendRows(conn: Conn, ts: seq<Type>, rows: seq<seq<Value>>) returns (ok: bool)
    requires conn.Valid() && WellFormedRows(ts, rows)
    modifies conn`asked, conn`overflows, conn.out, conn.out.data, conn.tx
    ensures Sent(conn, ok, EncodeRows(ts, rows))
  {
    ok := true;
    ghost var before := conn.Outgoing();
    for i := 0 to |rows|
      invariant conn.Valid() && (conn.out.data == old(conn.out.data) || fresh(conn.out.data))
      invariant ok ==> conn.Outgoing() + EncodeRows(ts, rows[i..]) == before + EncodeRows(ts, rows)
      invariant conn.Trouble() >= old(conn.Trouble()) + (if ok then 0 else 1)
      invariant old(conn.Modest()) && |EncodeRows(ts, rows)| <= MAX_CHUNK ==>
                  StaysSmall(conn) && |EncodeRows(ts, rows[i..])| <= MAX_CHUNK
    {
      Assoc(conn.Outgoing(), EncodeFields(ts, rows[i]), EncodeRows(ts, rows[i + 1..]));
      assert rows[i..][1..] == rows[i + 1..];
      var ok1 := SendFields(conn, ts, rows[i]);
      ok := ok && ok1;
    }
  }

  method SendTable(conn: Conn, m: Message) returns (ok: bool)
    requires conn.Valid() && m.Result? && WellFormedResult(m)
    modifies conn`asked, conn`overflows, conn.out, conn.out.data, conn.tx
    ensures Sent(conn, ok, EncodeTable(m))
  {
    hide EncodeUint32, EncodeColumns, EncodeRows, Refused;
    ghost var before := conn.Outgoing();
    var ts := ColumnTypes(m.cols);
    ghost var (r, c, cs, ds) :=
      (EncodeUint32(m.rows), EncodeUint32(|m.cols|), EncodeColumns(m.cols), EncodeRows(ts, m.data));
    var ok1 := Put(conn, EncodeUint32(m.rows));
    var ok2 := Put(conn, EncodeUint32(|m.cols|));
    var ok3 := SendColumns(conn, m.cols);
    var ok4 := SendRows(conn, ts, m.data);
    Assoc(before, r, c + (cs + ds));
    Assoc(before + r, c, cs + ds);
    Assoc(before + r + c, cs, ds);
    ok := ok1 && ok2 && ok3 && ok4;
  }

  /** The rows of a result are out when the callback is asked for an error that came up meanwhile. */
  method SendTrailer(conn: Conn, pending: Option<Error>) returns (ok: bool)
    requires conn.Valid() && (pending.Some? ==> WellFormedError(pending.value))
    modifies conn`asked, conn`overflows, conn.out, conn.out.data, conn.tx
    ensures Sent(conn, ok, EncodeTrailer(pending))
  {
    if pending.None? {
      ok := Put(conn, ['N' as byte]);
    } else {
      ghost var before := conn.Outgoing();
      var ok1 := Put(conn, ['E' as byte]);
      var ok2 := SendError(conn, pending.value);
      Assoc(before, ['E' as byte], EncodeError(pending.value));
      var ok3 := conn.Flush();
      ok := ok1 && ok2 && ok3;
    }
  }

  method SendResult(conn: Conn, m: Message, pending: Option<Error>) returns (ok: bool)
    requires conn.Valid() && m.Result? && WellFormedResult(m)
    requires pending.Some? ==> WellFormedError(pending.value)
    modifies conn`asked, conn`overflows, conn.out, conn.out.data, conn.tx
    ensures Sent(conn, ok, EncodeTable(m) + EncodeTrailer(pending))
  {
    hide EncodeTable, EncodeTrailer;
    ghost var before := conn.Outgoing();
    var ok1 := SendTable(conn, m);
    var ok2 := SendTrailer(conn, pending);
    Assoc(before, EncodeTable(m), EncodeTrailer(pending));
    ok := ok1 && ok2;
  }

  method SendSqlBody(conn: Conn, m: Message) returns (ok: bool)
    requires conn.Valid() && IsSql(m) && WellFormed(m)
    modifies conn`asked, conn`overflows, conn.out, conn.out.data, conn.tx
    ensures Sent(conn, ok, EncodeSqlBody(m))
  {
    hide EncodeInt64, EncodeString, EncodeArguments;
    ghost var before := conn.Outgoing();
    if m.Statement? {
      var ok1 := Put(conn, EncodeInt64(m.limit));
      var ok2 := SendString(conn, m.statement);
      Assoc(before, EncodeInt64(m.limit), EncodeString(m.statement));
      ok := ok1 && ok2;
    } else if m.Prepare? {
      var ok1 := SendArguments(conn, m.args);
      var ok2 := SendString(conn, m.statement);
      Assoc(before, EncodeArguments(m.args), EncodeString(m.statement));
      ok := ok1 && ok2;
    } else if m.Unprepare? {
      ok := Put(conn, EncodeInt64(m.pplan));
    } else {
      ghost var (a, l, p) := (EncodeArguments(m.args), EncodeInt64(m.limit), EncodeInt64(m.pplan));
      var ok1 := SendArguments(conn, m.args);
      var ok2 := Put(conn, EncodeInt64(m.limit));
      var ok3 := Put(conn, EncodeInt64(m.pplan));
      Assoc(before, a, l + p);
      Assoc(before + a, l, p);
      ok := ok1 && ok2 && ok3;
    }
  }

  method SendSql(conn: Conn, m: Message) returns (ok: bool)
    requires conn.Valid() && IsSql(m) && WellFormed(m)
    modifies conn`asked, conn`overflows, conn.out, conn.out.data, conn.tx
    ensures Sent(conn, ok, EncodeInt32(SqlType(m)) + EncodeSqlBody(m))
  {
    hide EncodeInt32, EncodeSqlBody;
    ghost var before := conn.Outgoing();
    var ok1 := Put(conn, EncodeInt32(SqlType(m)));
    var ok2 := SendSqlBody(conn, m);
    Assoc(before, EncodeInt32(SqlType(m)), EncodeSqlBody(m));
    ok := ok1 && ok2;
  }

  method SendMessageBody(conn: Conn, m: Message, pending: Option<Error>, version: seq<byte>) returns (ok: bool)
    requires conn.Valid() && WellFormed(m) && WellFormedString(Some(version))
    requires pending.Some? ==> WellFormedError(pending.value)
    modifies conn`asked, conn`overflows, conn.out, conn.out.data, conn.tx
    ensures Sent(conn, ok, EncodeMessageBody(m, pending, version))
  {
    hide Sent, EncodeString, EncodeCall, EncodeTable, EncodeTrailer, EncodeError, EncodeNote, EncodeInt16,
         EncodeInt32, EncodeSqlBody, WellFormedCall, WellFormedResult, WellFormedArguments;
    match m {
      case Ping => ok := SendString(conn, Some(version));
      case CallReq(_, _, _, _, _, _, _, _, _) => ok := SendCall(conn, m);
      case Result(_, _, _) => ok := SendResult(conn, m, pending);
      case Exception(e) => ok := SendError(conn, e);
      case Log(n, text) => ok := SendNote(conn, n, text);
      case Quote(n, text) => ok := SendNote(conn, n, text);
      case QuoteResult(n, text) => ok := SendNote(conn, n, text);
      case Raw(b) => ok := SendRaw(conn, b);
      case Subtransaction(action, exception) => ok := Put(conn, [action, exception]);
      case SubtransactionResult(r) => ok := Put(conn, EncodeInt16(r));
      case _ => ok := SendSql(conn, m);
    }
  }

  /** plcontainer_channel_send.  On success the bytes put on the wire since the start are those
      of the encoder (after whatever was still buffered), and nothing stays in the buffer. */
  method Send(conn: Conn, m: Message, pending: Option<Error>, version: seq<byte>) returns (ok: bool)
    requires conn.Valid() && WellFormed(m) && WellFormedString(Some(version))
    requires pending.Some? ==> WellFormedError(pending.value)
    modifies conn`asked, conn`overflows, conn.out, conn.out.data, conn.tx
    ensures Sent(conn, ok, Encode(m, pending, version))
    ensures conn.Willing() && old(conn.Modest()) && |Encode(m, pending, version)| <= MAX_CHUNK ==> ok
    ensures ok ==> conn.out.Pending() == []
    ensures ok ==> conn.tx.bytes == old(conn.Outgoing()) + Encode(m, pending, version)
  {
    hide EncodeMessageBody, WellFormed;
    ghost var before := conn.Outgoing();
    var ok1 := Put(conn, [Tag(m)]);
    var ok2 := SendMessageBody(conn, m, pending, version);
    Assoc(before, [Tag(m)], EncodeMessageBody(m, pending, version));
    var ok3 := conn.Flush();
    ok := ok1 && ok2 && ok3;
    if conn.Willing() {
      conn.WillingRefusesNothing();
    }
  }
}
