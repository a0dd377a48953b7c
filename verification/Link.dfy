/** Two connections joined by a socket: whatever either side does, and however the
    socket splits or fails calls, no byte is lost, repeated or reordered. */
module Link {
  import opened Basics
  import opened ByteStream

  /** What each side has put into the stream and got out of it since the start. */
  datatype History = History(sentByA: seq<byte>, readByB: seq<byte>, sentByB: seq<byte>, readByA: seq<byte>)
  {
    function Swap(): History {
      History(sentByB, readByA, sentByA, readByB)
    }
  }

  datatype Op =
    | Append(byA: bool, src: seq<byte>)
    | Flush(byA: bool)
    | Receive(byA: bool, n: nat)
    | Read(byA: bool, n: nat)

  /** The operation overflows no int at the connection that makes it, as it is now. */
  predicate Fits(c: Conn, op: Op)
    requires c.inp.Valid() && c.out.Valid()
    reads c, c.inp, c.out
  {
    match op
    case Append(_, src) => c.CanAppend(|src|)
    case Flush(_) => true
    case Receive(_, n) => c.CanReceive(n)
    case Read(_, n) => c.CanReceive(n)
  }

  /** No request above MAX_CHUNK. */
  predicate Small(op: Op) {
    match op
    case Append(_, src) => |src| <= MAX_CHUNK
    case Flush(_) => true
    case Receive(_, n) => n <= MAX_CHUNK
    case Read(_, n) => n <= MAX_CHUNK
  }

  /** a's output wire is b's input wire and the other way round; nothing else is shared. */
  ghost predicate Linked(a: Conn, b: Conn)
    reads a, b, a.inp, a.out, b.inp, b.out
  {
    && a.Valid() && b.Valid()
    && a.tx == b.rx && a.rx == b.tx
    && a != b && a.inp != b.inp && a.inp != b.out && a.out != b.inp && a.out != b.out
    && {a.inp.data, a.out.data} !! {b.inp.data, b.out.data}
  }

  /** In each direction: sent = read, then the receiver's buffer, the wire, the sender's buffer. */
  ghost predicate Conserved(a: Conn, b: Conn, h: History)
    requires Linked(a, b)
    reads a, b, a.inp, a.out, b.inp, b.out, a.inp.data, a.out.data, b.inp.data, b.out.data, a.tx, b.tx
  {
    && h.sentByA == h.readByB + b.inp.Pending() + a.tx.bytes + a.out.Pending()
    && h.sentByB == h.readByA + a.inp.Pending() + b.tx.bytes + b.out.Pending()
  }

  method AppendStep(a: Conn, b: Conn, ghost h: History, src: seq<byte>) returns (ok: bool, ghost h': History)
    requires Linked(a, b) && Conserved(a, b, h) && a.CanAppend(|src|)
    modifies a`asked, a.out, a.out.data, a.tx
    ensures Linked(a, b) && Conserved(a, b, h')
    ensures a.out.data == old(a.out.data) || fresh(a.out.data)
    ensures h' == if ok then h.(sentByA := h.sentByA + src) else h
    ensures old(a.Modest()) && |src| <= MAX_CHUNK ==> a.Modest()
  {
    hide AppendFits;
    ghost var front := h.readByB + b.inp.Pending();
    Assoc(front, a.tx.bytes, a.out.Pending());
    Assoc(front, a.Outgoing(), src);
    ok := a.Append(src);
    h' := if ok then h.(sentByA := h.sentByA + src) else h;
    Assoc(front, a.tx.bytes, a.out.Pending());
  }

  method FlushStep(a: Conn, b: Conn, ghost h: History) returns (ok: bool)
    requires Linked(a, b) && Conserved(a, b, h)
    modifies a`asked, a.out, a.out.data, a.tx
    ensures Linked(a, b) && Conserved(a, b, h) && a.out.data == old(a.out.data)
    ensures old(a.Modest()) ==> a.Modest()
  {
    ghost var front := h.readByB + b.inp.Pending();
    Assoc(front, a.tx.bytes, a.out.Pending());
    ok := a.Flush();
    Assoc(front, a.tx.bytes, a.out.Pending());
  }

  method ReceiveStep(a: Conn, b: Conn, ghost h: History, n: nat) returns (ok: bool)
    requires Linked(a, b) && Conserved(a, b, h) && a.CanReceive(n)
    modifies a`asked, a.inp, a.inp.data, a.rx
    ensures Linked(a, b) && Conserved(a, b, h)
    ensures a.inp.data == old(a.inp.data) || fresh(a.inp.data)
    ensures old(a.Modest()) && n <= MAX_CHUNK ==> a.Modest()
  {
    hide ReceiveFits;
    Assoc(h.readByA, a.inp.Pending(), a.rx.bytes);
    ok := a.Receive(n);
    Assoc(h.readByA, a.inp.Pending(), a.rx.bytes);
  }

  method ReadStep(a: Conn, b: Conn, ghost h: History, n: nat) returns (ok: bool, bs: seq<byte>, ghost h': History)
    requires Linked(a, b) && Conserved(a, b, h) && a.CanReceive(n)
    modifies a`asked, a.inp, a.inp.data, a.rx
    ensures Linked(a, b) && Conserved(a, b, h')
    ensures a.inp.data == old(a.inp.data) || fresh(a.inp.data)
    ensures h' == if ok then h.(readByA := h.readByA + bs) else h
    ensures ok ==> |bs| == n
    ensures old(a.Modest()) && n <= MAX_CHUNK ==> a.Modest()
  {
    hide ReceiveFits;
    Assoc(h.readByA, a.inp.Pending(), a.rx.bytes);
    ok, bs := a.Read(n);
    h' := if ok then h.(readByA := h.readByA + bs) else h;
    if ok {
      Assoc(h.readByA, bs, a.Incoming());
    }
    Assoc(h'.readByA, a.inp.Pending(), a.rx.bytes);
  }

  /** Streams only grow. */
  ghost predicate Extends(h: History, h': History) {
    && h.sentByA <= h'.sentByA && h.readByB <= h'.readByB
    && h.sentByB <= h'.sentByB && h.readByA <= h'.readByA
  }

  method SideStep(a: Conn, b: Conn, ghost h: History, op: Op) returns (ghost h': History)
    requires Linked(a, b) && Conserved(a, b, h) && Fits(a, op)
    modifies a.Repr()
    ensures Linked(a, b) && Conserved(a, b, h') && Extends(h, h')
    ensures fresh(a.Repr() - old(a.Repr()))
    ensures old(a.Modest()) && Small(op) ==> a.Modest()
  {
    hide Conserved, AppendFits, ReceiveFits;
    h' := h;
    match op {
      case Append(_, src) => var ok; ok, h' := AppendStep(a, b, h, src);
      case Flush(_) => var ok := FlushStep(a, b, h);
      case Receive(_, n) => var ok := ReceiveStep(a, b, h, n);
      case Read(_, n) => var ok, bs; ok, bs, h' := ReadStep(a, b, h, n);
    }
  }

  /** Any operation of either side keeps every byte where it belongs. */
  method Step(a: Conn, b: Conn, ghost h: History, op: Op) returns (ghost h': History)
    requires Linked(a, b) && Conserved(a, b, h) && Fits(if op.byA then a else b, op)
    modifies a.Repr(), b.Repr()
    ensures Linked(a, b) && Conserved(a, b, h') && Extends(h, h')
    ensures fresh(a.Repr() + b.Repr() - old(a.Repr() + b.Repr()))
    ensures old(a.Modest() && b.Modest()) && Small(op) ==> a.Modest() && b.Modest()
  {
    hide Conserved, Fits;
    if op.byA {
      h' := SideStep(a, b, h, op);
    } else {
      Swapped(a, b, h);
      ghost var g := SideStep(b, a, h.Swap(), op);
      Swapped(b, a, g);
      h' := g.Swap();
    }
  }

  /** The two sides are alike. */
  lemma Swapped(a: Conn, b: Conn, h: History)
    requires Linked(a, b) && Conserved(a, b, h)
    ensures Linked(b, a) && Conserved(b, a, h.Swap())
  {
  }

  lemma SmallFits(c: Conn, op: Op)
    requires c.Valid() && c.Modest() && Small(op)
    ensures Fits(c, op)
  {
    hide AppendFits, ReceiveFits;
    var n := match op case Append(_, src) => |src| case Flush(_) => 0 case Receive(_, n) => n case Read(_, n) => n;
    SmallRequestsFit(c.out.pStart as int, c.out.pEnd as int, c.out.bufSize as int, n);
    SmallRequestsFit(c.inp.pStart as int, c.inp.pEnd as int, c.inp.bufSize as int, n);
  }

  /** Conservation over every run, up to the first request that would overflow an int: any
      interleaving of operations by both sides, so each side has read a prefix of what the other has
      sent. A run of requests of at most MAX_CHUNK on new connections never gets there. */
  method Run(a: Conn, b: Conn, ghost h: History, ops: seq<Op>) returns (ghost h': History, done: nat)
    requires Linked(a, b) && Conserved(a, b, h)
    modifies a.Repr(), b.Repr()
    ensures Linked(a, b) && Conserved(a, b, h') && Extends(h, h')
    ensures h'.readByB <= h'.sentByA && h'.readByA <= h'.sentByB
    ensures done <= |ops| && (done < |ops| ==> !Fits(if ops[done].byA then a else b, ops[done]))
    ensures old(a.Modest() && b.Modest()) && (forall i | 0 <= i < |ops| :: Small(ops[i])) ==> done == |ops|
  {
    hide Fits, Small, Conserved;
    h', done := h, 0;
    while done < |ops|
      invariant done <= |ops|
      invariant Linked(a, b) && Conserved(a, b, h') && Extends(h, h')
      invariant fresh(a.Repr() + b.Repr() - old(a.Repr() + b.Repr()))
      invariant old(a.Modest() && b.Modest()) && (forall i | 0 <= i < |ops| :: Small(ops[i])) ==>
                  a.Modest() && b.Modest()
    {
      var side := if ops[done].byA then a else b;
      if side.Modest() && Small(ops[done]) {
        SmallFits(side, ops[done]);
      }
      if !Fits(side, ops[done]) {
        break;
      }
      h' := Step(a, b, h', ops[done]);
      done := done + 1;
    }
    ReadIsPrefix(a, b, h');
  }

  lemma ReadIsPrefix(a: Conn, b: Conn, h: History)
    requires Linked(a, b) && Conserved(a, b, h)
    ensures h.readByB <= h.sentByA && h.readByA <= h.sentByB
  {
  }
}
