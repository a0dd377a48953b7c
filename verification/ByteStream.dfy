/** The buffered byte stream under every message (src/common/comm_connectivity.c).

    A connection owns an input and an output buffer: an array with a window
    [pStart, pEnd) of pending bytes.  Buffers are compacted, grown and shrunk in
    place; the socket below may accept or deliver any part of what it is asked for.
    Positions are 32-bit signed integers as in the source, so every addition below
    carries a proof that it does not overflow.
 */
module ByteStream {
  import opened Basics

  newtype int32 = x: int | -0x8000_0000 <= x < 0x8000_0000
  newtype byte = x: int | 0 <= x < 256

  const INT_MAX: int := 0x7fff_ffff
  const BUFFER_SIZE: int32 := 8192
  const MIN_FREE: int32 := 200

  /** Requests of at most MAX_CHUNK bytes never overflow buffer arithmetic, as long as only such
      requests were made before: buffers then stay below MAX_BUFFER (see `ChunksNeverOverflow`). */
  const MAX_CHUNK: int := 0x2A00_0000
  const MAX_BUFFER: int := 2 * MAX_CHUNK + 16384

  // ---------------------------------------------------------------- overflow

  predicate Shrinks(pStart: int, pEnd: int, bufSize: int, n: int) {
    pEnd - pStart + n + 200 < bufSize / 5 && bufSize > 8192
  }

  /** Every intermediate value that MaybeResize computes fits a 32-bit int. */
  predicate ResizeFits(pStart: int, pEnd: int, bufSize: int, n: int) {
    var dataSize := pEnd - pStart + n + 200;
    && dataSize <= INT_MAX
    && (Shrinks(pStart, pEnd, bufSize, n)
        || (&& pEnd + n <= INT_MAX
            && (pEnd + n > bufSize - 200 ==> (dataSize / 8192 + 1) * 8192 <= INT_MAX)))
  }

  predicate Window(pStart: int, pEnd: int, bufSize: int) {
    0 <= pStart <= pEnd <= bufSize <= INT_MAX && bufSize > 0 && bufSize % 8192 == 0
  }

  /** Where MaybeReset leaves the start of the window. */
  function ResetStart(pStart: int, pEnd: int, bufSize: int): (s: int)
    requires Window(pStart, pEnd, bufSize)
    ensures 0 <= s <= bufSize / 2 && s <= pStart
  {
    if pStart == pEnd || pStart > bufSize / 2 then 0 else pStart
  }

  /** Where MaybeReset leaves the end of the window. */
  function ResetEnd(pStart: int, pEnd: int, bufSize: int): int
    requires Window(pStart, pEnd, bufSize)
  {
    ResetStart(pStart, pEnd, bufSize) + (pEnd - pStart)
  }

  /** MaybeFlush sends without being forced to. */
  predicate Flushes(pStart: int, pEnd: int, bufSize: int) {
    bufSize - pEnd < 200 || pEnd - pStart > 8192
  }

  /** An append that lacks room resets, flushes if the buffer is full enough, and then resizes. */
  predicate AppendFlushes(pStart: int, pEnd: int, bufSize: int)
    requires Window(pStart, pEnd, bufSize)
  {
    Flushes(ResetStart(pStart, pEnd, bufSize), ResetEnd(pStart, pEnd, bufSize), bufSize)
  }

  /** Every int that an append of n bytes computes fits: it has room, or the resize fits at the window
      that reset and flush leave. */
  predicate AppendFits(pStart: int, pEnd: int, bufSize: int, n: nat)
    requires Window(pStart, pEnd, bufSize)
  {
    || n <= bufSize - pEnd
    || (if AppendFlushes(pStart, pEnd, bufSize) then ResizeFits(0, 0, bufSize, n)
        else ResizeFits(ResetStart(pStart, pEnd, bufSize), ResetEnd(pStart, pEnd, bufSize), bufSize, n))
  }

  /** Every int that a receive of n bytes computes fits. */
  predicate ReceiveFits(pStart: int, pEnd: int, bufSize: int, n: nat)
    requires Window(pStart, pEnd, bufSize)
  {
    || n <= pEnd - pStart
    || ResizeFits(ResetStart(pStart, pEnd, bufSize), ResetEnd(pStart, pEnd, bufSize), bufSize, n)
  }

  /** The bound on the data to hold: pending bytes, request, reserve and one block. */
  predicate DataFits(pStart: int, pEnd: int, n: nat) {
    pEnd - pStart + n + 200 + 8192 <= INT_MAX
  }

  /** With the data bounded an append overflows exactly when it lacks room, does not flush, does not
      shrink the buffer, and the end of the reset window plus the request passes INT_MAX. */
  lemma AppendOverflowsIff(pStart: int, pEnd: int, bufSize: int, n: nat)
    requires Window(pStart, pEnd, bufSize) && DataFits(pStart, pEnd, n)
    ensures var (s, e) := (ResetStart(pStart, pEnd, bufSize), ResetEnd(pStart, pEnd, bufSize));
            !AppendFits(pStart, pEnd, bufSize, n)
            <==> n > bufSize - pEnd && !AppendFlushes(pStart, pEnd, bufSize)
                 && !Shrinks(s, e, bufSize, n) && e + n > INT_MAX
  {
    RoundingFits(pEnd - pStart + n + 200);
    RoundingFits(n + 200);
  }

  /** A receive overflows exactly when it lacks data, does not shrink the buffer, and the end of the
      reset window plus the request passes INT_MAX. */
  lemma ReceiveOverflowsIff(pStart: int, pEnd: int, bufSize: int, n: nat)
    requires Window(pStart, pEnd, bufSize) && DataFits(pStart, pEnd, n)
    ensures var (s, e) := (ResetStart(pStart, pEnd, bufSize), ResetEnd(pStart, pEnd, bufSize));
            !ReceiveFits(pStart, pEnd, bufSize, n)
            <==> n > pEnd - pStart && !Shrinks(s, e, bufSize, n) && e + n > INT_MAX
  {
    RoundingFits(pEnd - pStart + n + 200);
  }

  /** Output windows start at zero until a flush fails, so until then the bound on the data is enough
      for appends. */
  lemma AppendsFitAtStart(pEnd: int, bufSize: int, n: nat)
    requires Window(0, pEnd, bufSize) && DataFits(0, pEnd, n)
    ensures AppendFits(0, pEnd, bufSize, n)
  {
    AppendOverflowsIff(0, pEnd, bufSize, n);
  }

  lemma RoundingFits(dataSize: nat)
    ensures (dataSize / 8192 + 1) * 8192 <= dataSize + 8192
  {
  }

  /** The bound on the data is not enough. A receive of 1 GB grows the buffer; once that is read, a
      quarter as much and one byte comes in and all but the byte is read; the next request of almost
      2 GB is within the bound and overflows. */
  lemma DataBoundAloneOverflows()
    ensures TargetSize(0, 0, 8192, 0x4000_0000) == BIG && TargetSize(0, 0, BIG, 0x1000_0001) == BIG
    ensures Window(0x4000_0000, 0x4000_0000, BIG) && ResetEnd(0x4000_0000, 0x4000_0000, BIG) == 0
    ensures ReceiveFits(0, 0, 8192, 0x4000_0000) && ReceiveFits(0x4000_0000, 0x4000_0000, BIG, 0x1000_0001)
    ensures Window(0x1000_0000, 0x1000_0001, BIG) && DataFits(0x1000_0000, 0x1000_0001, 0x7FFF_D000)
    ensures !ReceiveFits(0x1000_0000, 0x1000_0001, BIG, 0x7FFF_D000)
  {
  }

  const BIG: int := 0x4000_2000

  /** The end of the buffer is too near: a buffer is needed, though perhaps not a larger one. */
  predicate Outgrows(pStart: int, pEnd: int, bufSize: int, n: int) {
    !Shrinks(pStart, pEnd, bufSize, n) && pEnd + n > bufSize - 200
  }

  /** The size MaybeResize asks the allocator for. */
  function TargetSize(pStart: int, pEnd: int, bufSize: int, n: int): int {
    var dataSize := pEnd - pStart + n + 200;
    if Shrinks(pStart, pEnd, bufSize, n) then (dataSize * 2 / 8192 + 1) * 8192
    else if pEnd + n > bufSize - 200 then (dataSize / 8192 + 1) * 8192
    else bufSize
  }

  /** A shrink is strict and still holds all the data; when its allocation fails the old
      buffer has room for the request after all.  Any other target has room too. */
  lemma TargetSizeHolds(pStart: int, pEnd: int, bufSize: int, n: nat)
    requires Window(pStart, pEnd, bufSize) && pStart <= bufSize / 2
    requires ResizeFits(pStart, pEnd, bufSize, n)
    ensures Window(0, pEnd - pStart + n, TargetSize(pStart, pEnd, bufSize, n))
    ensures Shrinks(pStart, pEnd, bufSize, n) ==>
              TargetSize(pStart, pEnd, bufSize, n) < bufSize && pEnd + n <= bufSize
  {
    var dataSize := pEnd - pStart + n + 200;
    assert dataSize < (dataSize / 8192 + 1) * 8192 <= dataSize + 8192;
    assert 2 * dataSize < (dataSize * 2 / 8192 + 1) * 8192 <= 2 * dataSize + 8192;
  }

  /** Small requests keep every buffer ever built below MAX_BUFFER, and below that size
      no small request overflows: n may be requested when little more than n is pending. */
  lemma ChunksNeverOverflow(pStart: int, pEnd: int, bufSize: int, n: nat)
    requires Window(pStart, pEnd, bufSize) && bufSize <= MAX_BUFFER && n <= MAX_CHUNK
    requires pStart <= bufSize / 2
    requires pEnd - pStart <= n + 8192
    ensures ResizeFits(pStart, pEnd, bufSize, n)
    ensures TargetSize(pStart, pEnd, bufSize, n) <= MAX_BUFFER
  {
    var dataSize := pEnd - pStart + n + 200;
    assert (dataSize / 8192 + 1) * 8192 <= dataSize + 8192;
    assert (dataSize * 2 / 8192 + 1) * 8192 <= dataSize * 2 + 8192;
  }

  /** After small requests only, every small request fits and leaves the buffer below MAX_BUFFER. */
  lemma SmallRequestsFit(pStart: int, pEnd: int, bufSize: int, n: nat)
    requires Window(pStart, pEnd, bufSize) && bufSize <= MAX_BUFFER && n <= MAX_CHUNK
    ensures AppendFits(pStart, pEnd, bufSize, n) && ReceiveFits(pStart, pEnd, bufSize, n)
  {
    var (s, e) := (ResetStart(pStart, pEnd, bufSize), ResetEnd(pStart, pEnd, bufSize));
    ChunksNeverOverflow(0, 0, bufSize, n);
    if e - s <= n + 8192 {
      ChunksNeverOverflow(s, e, bufSize, n);
    }
  }

  // ------------------------------------------------------------------ memory

  /** memcpy: defined only when the two regions do not overlap. */
  method CopyBytes(dst: array<byte>, d: nat, src: array<byte>, s: nat, n: nat)
    requires d + n <= dst.Length && s + n <= src.Length
    requires dst == src ==> d + n <= s || s + n <= d
    modifies dst
    ensures dst[d..d + n] == old(src[s..s + n])
    ensures dst[..d] == old(dst[..d]) && dst[d + n..] == old(dst[d + n..])
  {
    forall i | 0 <= i < n {
      dst[d + i] := src[s + i];
    }
  }

  /** Writes a caller's bytes into a buffer's array (memcpy from outside memory). */
  method StoreBytes(dst: array<byte>, d: nat, src: seq<byte>)
    requires d + |src| <= dst.Length
    modifies dst
    ensures dst[d..d + |src|] == src
    ensures dst[..d] == old(dst[..d]) && dst[d + |src|..] == old(dst[d + |src|..])
  {
    forall i | 0 <= i < |src| {
      dst[d + i] := src[i];
    }
  }

  // ------------------------------------------------------------------ buffer

  class Buffer {
    var data: array<byte>
    var pStart: int32
    var pEnd: int32
    var bufSize: int32

    predicate Valid()
      reads this
    {
      && Window(pStart as int, pEnd as int, bufSize as int)
      && data.Length == bufSize as int
    }

    /** The bytes appended and not yet taken out, oldest first. */
    function Pending(): seq<byte>
      requires Valid()
      reads this, data
    {
      data[pStart..pEnd]
    }

    constructor ()
      ensures Valid() && Pending() == [] && fresh(data)
      ensures pStart == 0 && bufSize == BUFFER_SIZE
    {
      data := new byte[8192];
      pStart, pEnd, bufSize := 0, 0, BUFFER_SIZE;
    }

    /** Compaction.  The copied regions never overlap: data that starts past the middle
        is shorter than the free space before it. */
    method MaybeReset()
      requires Valid()
      modifies this, data
      ensures Valid() && data == old(data) && bufSize == old(bufSize)
      ensures Pending() == old(Pending())
      ensures pStart as int == ResetStart(old(pStart) as int, old(pEnd) as int, bufSize as int)
    {
      if pStart == pEnd {
        pStart := 0;
        pEnd := 0;
      } else if pStart > bufSize / 2 {
        CopyBytes(data, 0, data, pStart as int, (pEnd - pStart) as int);
        pEnd := pEnd - pStart;
        pStart := 0;
        assert data[0..pEnd] == old(data[pStart..pEnd]);
      }
    }

    /** Grow or shrink, if there is memory; only a failed growth is an error. */
    method MaybeResize(n: nat, gotMemory: bool) returns (ok: bool)
      requires Valid() && pStart <= bufSize / 2
      requires ResizeFits(pStart as int, pEnd as int, bufSize as int, n)
      modifies this
      ensures Valid() && Pending() == old(Pending())
      ensures data == old(data) || fresh(data)
      ensures ok <==> gotMemory || !old(Outgrows(pStart as int, pEnd as int, bufSize as int, n))
      ensures ok ==> pEnd as int + n <= bufSize as int
      ensures !gotMemory ==> unchanged(this)
      ensures pStart == old(pStart) || pStart == 0
      ensures gotMemory ==> bufSize as int == old(TargetSize(pStart as int, pEnd as int, bufSize as int, n))
    {
      TargetSizeHolds(pStart as int, pEnd as int, bufSize as int, n);
      var dataSize: int32 := (pEnd - pStart) + n as int32 + MIN_FREE;
      var newSize: int32 := bufSize;
      if dataSize < bufSize / 5 && bufSize > BUFFER_SIZE {
        newSize := ((dataSize * 2) / BUFFER_SIZE + 1) * BUFFER_SIZE;
        if !gotMemory {
          return true;
        }
      } else if pEnd + n as int32 > bufSize - MIN_FREE {
        newSize := (dataSize / BUFFER_SIZE + 1) * BUFFER_SIZE;
        if !gotMemory {
          return false;
        }
      } else {
        return true;
      }
      Reallocate(newSize);
      return true;
    }

    /** The copy at the end of an append. */
    method Put(src: seq<byte>)
      requires Valid() && pEnd as int + |src| <= bufSize as int
      modifies this`pEnd, data
      ensures Valid() && Pending() == old(Pending()) + src
    {
      StoreBytes(data, pEnd as int, src);
      SliceOfTake(old(data[..]), pStart as int, pEnd as int);
      SliceOfTake(data[..], pStart as int, pEnd as int);
      assert data[..][..pEnd] == old(data[..])[..pEnd];
      pEnd := pEnd + |src| as int32;
      SliceSplit(data[..], pStart as int, old(pEnd) as int, pEnd as int);
    }

    /** The copy at the end of a read. */
    method Take(n: nat) returns (bs: seq<byte>)
      requires Valid() && n <= |Pending()|
      modifies this`pStart
      ensures Valid() && |bs| == n && old(Pending()) == bs + Pending()
    {
      bs := data[pStart..pStart + n as int32];
      pStart := pStart + n as int32;
    }

    method Reallocate(newSize: int32)
      requires Valid() && Window(0, (pEnd - pStart) as int, newSize as int)
      modifies this
      ensures Valid() && Pending() == old(Pending())
      ensures fresh(data) && pStart == 0 && pEnd == old(pEnd - pStart) && bufSize == newSize
    {
      var newBuffer := new byte[newSize as int];
      CopyBytes(newBuffer, 0, data, pStart as int, (pEnd - pStart) as int);
      data := newBuffer;
      pEnd := pEnd - pStart;
      pStart := 0;
      bufSize := newSize;
    }
  }

  // -------------------------------------------------------------- connection

  /** What the environment answers to the k-th thing a connection asks of it: a send, a receive or an
      allocation. A negative answer refuses it; any other lets a send or receive move that many bytes,
      but at least one and no more than there are. */
  type Answers = nat -> int

  /** The refusals among the first n answers. */
  ghost function Refused(env: Answers, n: nat): nat {
    if n == 0 then 0 else Refused(env, n - 1) + if env(n - 1) < 0 then 1 else 0
  }

  lemma {:induction false} NeverRefused(env: Answers, n: nat)
    requires forall k: nat | k < n :: env(k) >= 0
    ensures Refused(env, n) == 0
  {
    if n > 0 {
      NeverRefused(env, n - 1);
    }
  }

  /** One direction of a socket: the bytes accepted from the sender and not yet delivered. */
  class Wire {
    var bytes: seq<byte>

    constructor ()
      ensures bytes == []
    {
      bytes := [];
    }

    /** How many of len bytes an answer lets through. */
    static function Share(answer: int, len: nat): (n: nat)
      requires 0 < len
      ensures 0 < n <= len && (0 < answer <= len ==> n == answer)
    {
      if answer < 1 then 1 else if answer < len then answer else len
    }

    method Send(src: seq<byte>, answer: int) returns (n: int32)
      requires 0 < |src| <= INT_MAX
      modifies this
      ensures n < 0 <==> answer < 0
      ensures n < 0 ==> bytes == old(bytes)
      ensures n >= 0 ==> n as int == Share(answer, |src|) && bytes == old(bytes) + src[..n]
    {
      if answer < 0 {
        return -1;
      }
      n := Share(answer, |src|) as int32;
      bytes := bytes + src[..n];
    }

    /** Delivers 0 < n <= len bytes at dst[at..], or reports failure, or that nothing is there. */
    method Recv(dst: array<byte>, at: int32, len: int32, answer: int) returns (n: int32)
      requires 0 < len && 0 <= at && at as int + len as int <= dst.Length
      modifies this, dst
      ensures n <= 0 <==> answer < 0 || old(bytes) == []
      ensures n <= 0 ==> bytes == old(bytes) && dst[..] == old(dst[..])
      ensures n <= len && n as int <= |old(bytes)|
      ensures n > 0 ==>
                && bytes == old(bytes)[n..]
                && dst[at..at as int + n as int] == old(bytes)[..n]
                && dst[..at] == old(dst[..at])
    {
      if answer < 0 || bytes == [] {
        return 0;
      }
      n := Share(answer, if |bytes| < len as int then |bytes| else len as int) as int32;
      StoreBytes(dst, at as int, bytes[..n]);
      bytes := bytes[n..];
    }
  }

  class Conn {
    const inp: Buffer
    const out: Buffer
    const tx: Wire
    const rx: Wire
    /** The environment, and how much has been asked of it. */
    const env: Answers
    var asked: nat
    /** How many requests were given up because they would overflow an int. */
    ghost var overflows: nat

    ghost function Repr(): set<object>
      reads this, inp, out
    {
      {this, inp, out, inp.data, out.data, tx, rx}
    }

    ghost predicate Valid()
      reads this, inp, out
    {
      && inp != out && inp.data != out.data && tx != rx
      && inp.Valid() && out.Valid()
    }

    /** What may make a call fail: refusals of the environment, and requests given up. */
    ghost function Trouble(): nat
      reads this
    {
      Refused(env, asked) + overflows
    }

    /** Socket and memory never refuse anything. */
    ghost predicate Willing() {
      forall k: nat :: env(k) >= 0
    }

    lemma WillingRefusesNothing()
      requires Willing()
      ensures Trouble() == overflows
    {
      NeverRefused(env, asked);
    }

    method Ask() returns (answer: int)
      modifies this`asked
      ensures asked == old(asked) + 1 && answer == env(old(asked))
      ensures Refused(env, asked) == old(Refused(env, asked)) + if answer < 0 then 1 else 0
    {
      answer := env(asked);
      asked := asked + 1;
    }

    /** Only small requests were made so far. */
    predicate Modest()
      reads this, inp, out
    {
      inp.bufSize as int <= MAX_BUFFER && out.bufSize as int <= MAX_BUFFER
    }

    /** No int overflows when n bytes are appended now. */
    predicate CanAppend(n: nat)
      requires out.Valid()
      reads this, out
    {
      AppendFits(out.pStart as int, out.pEnd as int, out.bufSize as int, n)
    }

    /** No int overflows when n bytes are received now. */
    predicate CanReceive(n: nat)
      requires inp.Valid()
      reads this, inp
    {
      ReceiveFits(inp.pStart as int, inp.pEnd as int, inp.bufSize as int, n)
    }

    /** Everything appended and not yet received by the peer, oldest first. */
    ghost function Outgoing(): seq<byte>
      requires Valid()
      reads this, inp, out, out.data, tx
    {
      tx.bytes + out.Pending()
    }

    /** Everything the peer sent that is still to be read, oldest first. */
    ghost function Incoming(): seq<byte>
      requires Valid()
      reads this, inp, out, inp.data, rx
    {
      inp.Pending() + rx.bytes
    }

    constructor (tx: Wire, rx: Wire, env: Answers)
      requires tx != rx
      ensures Valid() && Modest() && this.tx == tx && this.rx == rx && this.env == env
      ensures asked == 0 && overflows == 0
      ensures fresh(Repr() - {tx, rx})
      ensures inp.Pending() == [] && out.Pending() == [] && out.pStart == 0
    {
      inp := new Buffer();
      out := new Buffer();
      this.tx := tx;
      this.rx := rx;
      this.env, asked, overflows := env, 0, 0;
    }

    /** Sends what is pending when the buffer is nearly full, holds much, or `isForce`. */
    method MaybeFlush(isForce: bool) returns (ok: bool)
      requires Valid()
      modifies this`asked, out, out.data, tx
      ensures Valid() && out.data == old(out.data) && out.bufSize == old(out.bufSize)
      ensures Outgoing() == old(Outgoing())
      ensures Trouble() == old(Trouble()) + if ok then 0 else 1
      ensures ok ==>
                if isForce || old(Flushes(out.pStart as int, out.pEnd as int, out.bufSize as int))
                then out.pStart == out.pEnd == 0
                else out.pStart == old(out.pStart) && out.pEnd == old(out.pEnd)
    {
      hide Refused;
      if out.bufSize - out.pEnd < MIN_FREE || out.pEnd - out.pStart > BUFFER_SIZE || isForce {
        while out.pStart < out.pEnd
          invariant Valid() && out.data == old(out.data) && out.bufSize == old(out.bufSize)
          invariant Outgoing() == old(Outgoing())
          invariant Trouble() == old(Trouble())
          decreases out.pEnd - out.pStart
        {
          ok := SendSome();
          if !ok {
            return;
          }
        }
        out.MaybeReset();
      }
      return true;
    }

    /** One call of send: some of the pending bytes move to the wire, unless it is refused. */
    method SendSome() returns (ok: bool)
      requires Valid() && out.pStart < out.pEnd
      modifies this`asked, out`pStart, tx
      ensures Valid() && Outgoing() == old(Outgoing())
      ensures Trouble() == old(Trouble()) + if ok then 0 else 1
      ensures ok ==> old(out.pStart) < out.pStart
      ensures !ok ==> out.pStart == old(out.pStart)
    {
      hide Refused;
      ghost var before := out.Pending();
      var answer := Ask();
      var sent := tx.Send(out.data[out.pStart..out.pEnd], answer);
      if sent < 0 {
        return false;
      }
      out.pStart := out.pStart + sent;
      assert before == before[..sent] + out.Pending();
      return true;
    }

    method Flush() returns (ok: bool)
      requires Valid()
      modifies this`asked, out, out.data, tx
      ensures Valid() && out.data == old(out.data) && out.bufSize == old(out.bufSize)
      ensures Outgoing() == old(Outgoing())
      ensures Trouble() == old(Trouble()) + if ok then 0 else 1
      ensures ok ==> out.Pending() == [] && out.pStart == 0
    {
      ok := MaybeFlush(true);
    }

    /** The window that a resize for an append starts from. */
    method ResetAndFlush() returns (ok: bool)
      requires Valid()
      modifies this`asked, out, out.data, tx
      ensures Valid() && out.data == old(out.data) && out.bufSize == old(out.bufSize)
      ensures Outgoing() == old(Outgoing())
      ensures Trouble() == old(Trouble()) + if ok then 0 else 1
      ensures ok ==>
                var (s, e, b) := old((out.pStart as int, out.pEnd as int, out.bufSize as int));
                if AppendFlushes(s, e, b) then out.pStart == out.pEnd == 0
                else out.pStart as int == ResetStart(s, e, b) && out.pEnd as int == ResetEnd(s, e, b)
    {
      hide Refused;
      out.MaybeReset();
      assert Outgoing() == old(Outgoing());
      ok := MaybeFlush(false);
    }

    /** Memory is asked for only when a new buffer is to be made; a refusal matters only when it is needed. */
    method Resize(buf: Buffer, n: nat) returns (ok: bool)
      requires buf.Valid() && buf.pStart <= buf.bufSize / 2
      requires ResizeFits(buf.pStart as int, buf.pEnd as int, buf.bufSize as int, n)
      modifies this`asked, buf
      ensures buf.Valid() && buf.Pending() == old(buf.Pending())
      ensures buf.data == old(buf.data) || fresh(buf.data)
      ensures ok ==> buf.pEnd as int + n <= buf.bufSize as int
      ensures buf.pStart == old(buf.pStart) || buf.pStart == 0
      ensures buf.bufSize == old(buf.bufSize)
              || buf.bufSize as int == old(TargetSize(buf.pStart as int, buf.pEnd as int, buf.bufSize as int, n))
      ensures Trouble() >= old(Trouble()) + if ok then 0 else 1
      ensures var (s, e, b) := old((buf.pStart as int, buf.pEnd as int, buf.bufSize as int));
              asked == old(asked) + if Shrinks(s, e, b, n) || Outgrows(s, e, b, n) then 1 else 0
    {
      hide Refused;
      var answer := 0;
      var (s, e, b) := (buf.pStart as int, buf.pEnd as int, buf.bufSize as int);
      if Shrinks(s, e, b, n) || Outgrows(s, e, b, n) {
        answer := Ask();
      }
      ok := buf.MaybeResize(n, answer >= 0);
    }

    /** Reset, flush and resize, in that order, until n more bytes fit. */
    method MakeRoom(n: nat) returns (ok: bool)
      requires Valid() && CanAppend(n) && n > (out.bufSize - out.pEnd) as int
      modifies this`asked, out, out.data, tx
      ensures Valid() && (out.data == old(out.data) || fresh(out.data))
      ensures Outgoing() == old(Outgoing())
      ensures ok ==> out.pEnd as int + n <= out.bufSize as int
      ensures Trouble() >= old(Trouble()) + if ok then 0 else 1
      ensures old(Modest()) && n <= MAX_CHUNK ==> Modest()
      ensures ok && old(out.pStart) == 0 ==> out.pStart == 0
    {
      hide Refused;
      ok := ResetAndFlush();
      if !ok {
        return;
      }
      if n <= MAX_CHUNK && out.bufSize as int <= MAX_BUFFER {
        ChunksNeverOverflow(out.pStart as int, out.pEnd as int, out.bufSize as int, n);
      }
      ok := Resize(out, n);
    }

    /** Adds the bytes at the end of the outgoing stream, or fails and adds none. */
    method Append(src: seq<byte>) returns (ok: bool)
      requires Valid() && CanAppend(|src|)
      modifies this`asked, out, out.data, tx
      ensures Valid() && (out.data == old(out.data) || fresh(out.data))
      ensures ok ==> Outgoing() == old(Outgoing()) + src
      ensures !ok ==> Outgoing() == old(Outgoing())
      ensures Trouble() >= old(Trouble()) + if ok then 0 else 1
      ensures old(|src| <= (out.bufSize - out.pEnd) as int) ==> ok && asked == old(asked)
      ensures Willing() ==> ok
      ensures old(Modest()) && |src| <= MAX_CHUNK ==> Modest()
      ensures ok && old(out.pStart) == 0 ==> out.pStart == 0
    {
      hide AppendFits, Refused;
      ok := true;
      if (out.bufSize - out.pEnd) as int < |src| {
        ok := MakeRoom(|src|);
        if !ok {
          if Willing() {
            WillingRefusesNothing();
          }
          return;
        }
      }
      Assoc(tx.bytes, out.Pending(), src);
      out.Put(src);
    }

    /** The receive loop: the socket is asked for all the free space, never for none. It fails only when
        refused or when fewer bytes are there. */
    method ReceiveMore(n: nat) returns (ok: bool)
      requires Valid() && |inp.Pending()| < n && inp.pEnd as int + n <= inp.bufSize as int
      modifies this`asked, inp, inp.data, rx
      ensures Valid() && inp.data == old(inp.data)
      ensures Incoming() == old(Incoming())
      ensures ok ==> n <= |inp.Pending()|
      ensures Trouble() >= old(Trouble()) + if ok || |old(Incoming())| < n then 0 else 1
      ensures inp.bufSize == old(inp.bufSize)
    {
      hide Refused;
      var toReceive: int32 := n as int32 - (inp.pEnd - inp.pStart);
      while toReceive > 0
        invariant Valid() && inp.data == old(inp.data)
        invariant Incoming() == old(Incoming())
        invariant Trouble() == old(Trouble())
        invariant toReceive as int == n - |inp.Pending()|
        invariant toReceive <= inp.bufSize - inp.pEnd
      {
        var got := ReceiveSome();
        if got <= 0 {
          return false;
        }
        toReceive := toReceive - got;
      }
      ok := true;
    }

    /** One call of recv: some bytes move from the wire into the free end of the buffer, unless it is
        refused or there are none. */
    method ReceiveSome() returns (got: int32)
      requires Valid() && inp.pEnd < inp.bufSize
      modifies this`asked, inp`pEnd, inp.data, rx
      ensures Valid() && Incoming() == old(Incoming())
      ensures got > 0 ==> inp.pEnd as int == old(inp.pEnd) as int + got as int && Trouble() == old(Trouble())
      ensures got <= 0 ==> inp.pEnd == old(inp.pEnd)
      ensures got <= 0 ==> Trouble() >= old(Trouble()) + if rx.bytes == [] then 0 else 1
    {
      hide Refused;
      ghost var (s, e) := (inp.pStart as int, inp.pEnd as int);
      ghost var (before, wire) := (inp.data[..], rx.bytes);
      SliceOfTake(before, s, e);
      var answer := Ask();
      got := rx.Recv(inp.data, inp.pEnd, inp.bufSize - inp.pEnd, answer);
      ghost var after := inp.data[..];
      assert after[..e] == before[..e];
      SliceOfTake(after, s, e);
      if got > 0 {
        inp.pEnd := inp.pEnd + got;
        SliceSplit(after, s, e, e + got as int);
        SliceSplit(wire, 0, got as int, |wire|);
        Assoc(before[s..e], wire[..got], rx.bytes);
        assert inp.Pending() == before[s..e] + wire[..got] && wire == wire[..got] + rx.bytes;
      }
      assert got <= 0 ==> inp.Pending() == before[s..e];
    }

    /** Makes at least n bytes pending; the incoming stream is what it was. */
    method Receive(n: nat) returns (ok: bool)
      requires Valid() && CanReceive(n)
      modifies this`asked, inp, inp.data, rx
      ensures Valid() && (inp.data == old(inp.data) || fresh(inp.data))
      ensures Incoming() == old(Incoming())
      ensures ok ==> n <= |inp.Pending()|
      ensures Trouble() >= old(Trouble()) + if ok || |old(Incoming())| < n then 0 else 1
      ensures old(n <= |inp.Pending()|) ==> ok && asked == old(asked)
      ensures old(Modest()) && n <= MAX_CHUNK ==> Modest()
    {
      hide ReceiveFits, Refused;
      ok := true;
      if (inp.pEnd - inp.pStart) as int < n {
        ok := MakeInputRoom(n);
        if ok {
          ok := ReceiveMore(n);
        }
      }
    }

    method MakeInputRoom(n: nat) returns (ok: bool)
      requires Valid() && CanReceive(n) && n > |inp.Pending()|
      modifies this`asked, inp, inp.data
      ensures Valid() && (inp.data == old(inp.data) || fresh(inp.data))
      ensures inp.Pending() == old(inp.Pending())
      ensures ok ==> inp.pEnd as int + n <= inp.bufSize as int
      ensures Trouble() >= old(Trouble()) + if ok then 0 else 1
      ensures old(Modest()) && n <= MAX_CHUNK ==> Modest()
    {
      hide Refused;
      inp.MaybeReset();
      if n <= MAX_CHUNK && inp.bufSize as int <= MAX_BUFFER {
        ChunksNeverOverflow(inp.pStart as int, inp.pEnd as int, inp.bufSize as int, n);
      }
      ok := Resize(inp, n);
    }

    /** Takes the next n bytes off the incoming stream, or fails and takes none. */
    method Read(n: nat) returns (ok: bool, bs: seq<byte>)
      requires Valid() && CanReceive(n)
      modifies this`asked, inp, inp.data, rx
      ensures Valid() && (inp.data == old(inp.data) || fresh(inp.data))
      ensures ok ==> |bs| == n && old(Incoming()) == bs + Incoming()
      ensures !ok ==> Incoming() == old(Incoming())
      ensures Trouble() >= old(Trouble()) + if ok || |old(Incoming())| < n then 0 else 1
      ensures old(n <= |inp.Pending()|) ==> ok && asked == old(asked)
      ensures Willing() && n <= |old(Incoming())| ==> ok
      ensures old(Modest()) && n <= MAX_CHUNK ==> Modest()
    {
      hide ReceiveFits, Refused;
      bs := [];
      ok := Receive(n);
      if ok {
        bs := inp.Take(n);
      } else if Willing() {
        WillingRefusesNothing();
      }
    }
  }

  /** Since the old state no request was given up, and the buffers stayed below their bound. */
  twostate predicate StaysSmall(conn: Conn)
    reads conn, conn.inp, conn.out
  {
    conn.Modest() && conn.overflows == old(conn.overflows)
  }
}
