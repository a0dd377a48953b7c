/** Codec, buffers and socket composed: one direction of a connection is a FIFO queue of
    messages, whatever the socket does to the bytes. */
module MessageQueue {
  import opened Basics
  import opened ByteStream
  import opened Codec
  import opened Link
  import Sender
  import Receiver

  /** A message as its sender sends it: a result also has the error that came up meanwhile. */
  datatype Letter = Letter(msg: Message, pending: Option<Error>)
  {
    predicate Valid() {
      WellFormed(msg) && (pending.Some? ==> WellFormedError(pending.value))
    }
  }

  function Bytes(q: seq<Letter>, version: seq<byte>): (bs: seq<byte>)
    requires WellFormedString(Some(version)) && forall i | 0 <= i < |q| :: q[i].Valid()
  {
    if q == [] then []
    else
      assert q[0].Valid();
      Encode(q[0].msg, q[0].pending, version) + Bytes(q[1..], version)
  }

  lemma {:induction false} BytesOfSnoc(q: seq<Letter>, l: Letter, version: seq<byte>)
    requires WellFormedString(Some(version)) && l.Valid() && forall i | 0 <= i < |q| :: q[i].Valid()
    ensures Bytes(q + [l], version) == Bytes(q, version) + Encode(l.msg, l.pending, version)
  {
    hide Encode, WellFormed, WellFormedError;
    if q == [] {
      assert Bytes([], version) + Encode(l.msg, l.pending, version) == Encode(l.msg, l.pending, version);
      assert (q + [l])[1..] == [];
    } else {
      BytesOfSnoc(q[1..], l, version);
      assert (q + [l])[1..] == q[1..] + [l];
      Assoc(Encode(q[0].msg, q[0].pending, version), Bytes(q[1..], version), Encode(l.msg, l.pending, version));
    }
  }

  /** The letters under way from a to b: in b's buffer, on the wire or in a's buffer. */
  ghost predicate InFlight(a: Conn, b: Conn, q: seq<Letter>, version: seq<byte>)
    requires Linked(a, b)
    reads a, b, a.inp, a.out, b.inp, b.out, b.inp.data, a.out.data, a.tx
  {
    && WellFormedString(Some(version))
    && (forall i | 0 <= i < |q| :: q[i].Valid())
    && b.Incoming() + a.out.Pending() == Bytes(q, version)
  }

  /** A completed send puts the letter at the end of the queue. It fails only if the environment refuses
      something during the call or a request is too large, which those of small letters are not. */
  method Post(a: Conn, b: Conn, ghost q: seq<Letter>, l: Letter, version: seq<byte>) returns (ok: bool)
    requires Linked(a, b) && InFlight(a, b, q, version) && l.Valid()
    modifies a`asked, a`overflows, a.out, a.out.data, a.tx
    ensures Linked(a, b) && (a.out.data == old(a.out.data) || fresh(a.out.data))
    ensures ok ==> InFlight(a, b, q + [l], version) && a.out.Pending() == []
    ensures a.Trouble() >= old(a.Trouble()) + if ok then 0 else 1
    ensures old(a.Modest()) && |Encode(l.msg, l.pending, version)| <= MAX_CHUNK ==>
              a.Modest() && a.overflows == old(a.overflows) && (a.Willing() ==> ok)
  {
    hide Encode, Bytes, WellFormed, WellFormedError, Refused;
    ghost var front := b.inp.Pending();
    ghost var bs := Encode(l.msg, l.pending, version);
    Assoc(front, a.tx.bytes, a.out.Pending());
    assert Bytes(q, version) == front + a.Outgoing();
    BytesOfSnoc(q, l, version);
    Assoc(front, a.Outgoing(), bs);
    ok := Sender.Send(a, l.msg, l.pending, version);
    if ok {
      assert front + a.Outgoing() == Bytes(q + [l], version);
      Assoc(front, a.tx.bytes, a.out.Pending());
    }
  }

  /** A receive takes the first letter if all of it is on the wire, its message is in the mask and, for a
      ping, the sender's version starts with the receiver's own. It fails only if the queue is empty, one
      of these is not so, the environment refuses something during the call, or a request is too large,
      which none is when there is little to read. */
  method Fetch(a: Conn, b: Conn, ghost q: seq<Letter>, mask: set<byte>, mine: seq<byte>, ghost version: seq<byte>)
    returns (ok: bool, m: Message)
    requires Linked(a, b) && InFlight(a, b, q, version) && a.out.Pending() == []
    modifies b`asked, b`overflows, b.inp, b.inp.data, b.rx
    ensures Linked(a, b) && (b.inp.data == old(b.inp.data) || fresh(b.inp.data))
    ensures ok ==> Acceptable(q, mask, mine, version) && m == Delivered(q[0].msg, q[0].pending)
    ensures ok ==> InFlight(a, b, q[1..], version) && a.out.Pending() == []
    ensures b.Trouble() >= old(b.Trouble()) + if ok || !Acceptable(q, mask, mine, version) then 0 else 1
    ensures Acceptable(q, mask, mine, version) && old(b.Modest()) && |Bytes(q, version)| <= MAX_CHUNK ==>
              b.Modest() && b.overflows == old(b.overflows) && (b.Willing() ==> ok)
  {
    hide Encode, Decode, WellFormed, WellFormedError, Delivered, Tag, Refused, Compatible;
    assert b.Incoming() == Bytes(q, version);
    if q != [] {
      RoundTrip(q[0].msg, q[0].pending, mask, mine, version, Bytes(q[1..], version));
    } else {
      DecodeNothing(mask, mine);
    }
    ok, m := Receiver.Receive(b, mask, mine);
    if ok {
      assert b.Incoming() + a.out.Pending() == Bytes(q[1..], version);
    }
  }

  /** There is a letter, and the receiver takes it. */
  predicate Acceptable(q: seq<Letter>, mask: set<byte>, mine: seq<byte>, version: seq<byte>) {
    q != [] && Tag(q[0].msg) in mask && Compatible(q[0].msg, mine, version)
  }

  lemma DecodeNothing(mask: set<byte>, mine: seq<byte>)
    ensures Decode(mask, mine, []) == Fail
  {
  }
}
