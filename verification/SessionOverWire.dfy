/** The conversation of module Session carried by two linked connections: each step's message goes
    through encoder, buffers and socket, and only the socket can make a step fail. */
module SessionOverWire {
  import opened Basics
  import opened ByteStream
  import opened Link
  import opened MessageQueue
  import Codec
  import S = Session

  function ByteOf(c: char): byte {
    if c as int < 256 then c as int as byte else 0
  }

  function MaskBytes(tags: set<char>): set<byte> {
    set c | c in tags :: ByteOf(c)
  }

  /** The wire form of a message of the conversation: the same kind, and for SQL the same statement kind.
      A garbled result has none. */
  predicate Wired(c: Codec.Message, m: S.Msg) {
    match m
    case Ping => c.Ping?
    case Call(_) => c.CallReq?
    case Result(_) => c.Result?
    case Log(_) => c.Log?
    case Ask(Statement, _) => c.Statement?
    case Ask(Execute, _) => c.Execute?
    case Ask(Prepare, _) => c.Prepare?
    case Ask(Unprepare, _) => c.Unprepare?
    case Ask(Quote, _) => c.Quote?
    case Ask(Subtransaction, _) => c.Subtransaction?
    case Raw(_) => c.Raw?
    case QuoteResult(_) => c.QuoteResult?
    case SubtransactionResult(_) => c.SubtransactionResult?
    case Garbled(_) => false
  }

  lemma WiredTag(c: Codec.Message, m: S.Msg)
    requires Wired(c, m)
    ensures Codec.Tag(c) == ByteOf(S.Tag(m))
  {
  }

  /** An error-free letter that a message stands for. */
  predicate StandsFor(l: Letter, m: S.Msg) {
    l.Valid() && l.pending.None? && Wired(l.msg, m)
  }

  predicate AllStandFor(ls: seq<Letter>, ms: seq<S.Msg>) {
    |ls| == |ms| && forall i | 0 <= i < |ls| :: StandsFor(ls[i], ms[i])
  }

  /** Letters under way in both directions, none of them held back in an output buffer. */
  ghost predicate Both(a: Conn, b: Conn, there: seq<Letter>, back: seq<Letter>, version: seq<byte>)
    reads a, b, a.inp, a.out, b.inp, b.out, a.inp.data, b.inp.data, a.out.data, b.out.data, a.tx, b.tx
  {
    && Linked(a, b) && Linked(b, a) && a.out.Pending() == [] && b.out.Pending() == []
    && InFlight(a, b, there, version) && InFlight(b, a, back, version)
  }

  /** The queues of a state are the letters under way between backend and client. */
  ghost predicate Carries(s: S.State, qe: Conn, cl: Conn, toC: seq<Letter>, toQ: seq<Letter>, version: seq<byte>)
    reads qe, cl, qe.inp, qe.out, cl.inp, cl.out, qe.inp.data, cl.inp.data, qe.out.data, cl.out.data, qe.tx, cl.tx
  {
    Both(qe, cl, toC, toQ, version) && AllStandFor(toC, s.toC) && AllStandFor(toQ, s.toQ)
  }

  lemma BothSwap(a: Conn, b: Conn, there: seq<Letter>, back: seq<Letter>, version: seq<byte>)
    ensures Both(a, b, there, back, version) <==> Both(b, a, back, there, version)
  {
  }

  lemma StandForSnoc(ls: seq<Letter>, ms: seq<S.Msg>, l: Letter, m: S.Msg)
    requires AllStandFor(ls, ms) && StandsFor(l, m)
    ensures AllStandFor(ls + [l], ms + [m])
  {
  }

  lemma StandForRest(ls: seq<Letter>, ms: seq<S.Msg>)
    requires AllStandFor(ls, ms) && ms != []
    ensures ls != [] && StandsFor(ls[0], ms[0]) && AllStandFor(ls[1..], ms[1..])
  {
  }

  method Side(tx: Wire, rx: Wire, env: Answers) returns (c: Conn)
    requires tx != rx && tx.bytes == []
    ensures c.Valid() && Unused(c) && c.env == env && c.tx == tx && c.rx == rx && Silent(c)
    ensures fresh(c) && fresh(c.inp) && fresh(c.out) && fresh(c.inp.data) && fresh(c.out.data)
  {
    c := new Conn(tx, rx, env);
    assert {c, c.inp, c.out, c.inp.data, c.out.data} <= c.Repr() - {tx, rx};
  }

  /** The other end of a new connection. */
  method Other(qe: Conn, env: Answers) returns (cl: Conn)
    requires qe.Valid() && Silent(qe) && qe.rx.bytes == []
    ensures Unused(cl) && cl.env == env && Linked(qe, cl) && Linked(cl, qe) && Silent(qe) && Silent(cl)
    ensures cl.tx == qe.rx && cl.rx == qe.tx
    ensures fresh(cl) && fresh(cl.inp) && fresh(cl.out) && fresh(cl.inp.data) && fresh(cl.out.data)
  {
    cl := Side(qe.rx, qe.tx, env);
    assert {qe.inp.data, qe.out.data} !! {cl.inp.data, cl.out.data};
  }

  method Join(envQ: Answers, envC: Answers) returns (qe: Conn, cl: Conn)
    ensures fresh(qe) && fresh(cl) && fresh(qe.Repr()) && fresh(cl.Repr())
    ensures Unused(qe) && Unused(cl) && qe.env == envQ && cl.env == envC
    ensures Linked(qe, cl) && Linked(cl, qe) && Silent(qe) && Silent(cl)
  {
    hide Linked, Silent, Unused;
    var down := new Wire();
    var up := new Wire();
    qe := Side(down, up, envQ);
    cl := Other(qe, envC);
  }

  ghost predicate Unused(c: Conn)
    reads c, c.inp, c.out
  {
    c.Modest() && c.asked == 0 && c.overflows == 0
  }

  ghost predicate Silent(c: Conn)
    requires c.Valid()
    reads c, c.inp, c.out, c.inp.data, c.out.data, c.tx
  {
    c.inp.Pending() == [] && c.out.Pending() == [] && c.tx.bytes == []
  }

  lemma SilentCarries(qe: Conn, cl: Conn, version: seq<byte>)
    requires Linked(qe, cl) && Linked(cl, qe) && Silent(qe) && Silent(cl) && Codec.WellFormedString(Some(version))
    ensures Carries(S.INIT, qe, cl, [], [], version)
  {
    assert Bytes([], version) == [];
    assert cl.Incoming() == [] && qe.Incoming() == [];
  }

  /** Two new connections, joined: nothing is under way, as before the first step. */
  method Connect(version: seq<byte>, envQ: Answers, envC: Answers) returns (qe: Conn, cl: Conn)
    requires Codec.WellFormedString(Some(version))
    ensures fresh(qe) && fresh(cl) && fresh(qe.Repr()) && fresh(cl.Repr())
    ensures Unused(qe) && Unused(cl) && qe.env == envQ && cl.env == envC && Carries(S.INIT, qe, cl, [], [], version)
  {
    hide Linked, Silent, Carries, Unused;
    qe, cl := Join(envQ, envC);
    SilentCarries(qe, cl, version);
  }

  // ------------------------------------------------------------------- steps

  /** The bytes of a letter, and of all letters under way. */
  function Size(l: Letter, version: seq<byte>): nat {
    if l.Valid() && Codec.WellFormedString(Some(version)) then |Codec.Encode(l.msg, l.pending, version)| else 0
  }

  function TotalSize(ls: seq<Letter>, version: seq<byte>): nat {
    if ls == [] then 0 else Size(ls[0], version) + TotalSize(ls[1..], version)
  }

  lemma {:induction false} SizeOfBytes(ls: seq<Letter>, version: seq<byte>)
    requires Codec.WellFormedString(Some(version)) && forall i | 0 <= i < |ls| :: ls[i].Valid()
    ensures |Bytes(ls, version)| == TotalSize(ls, version)
  {
    hide Codec.Encode, Codec.WellFormed;
    if ls != [] {
      SizeOfBytes(ls[1..], version);
    }
  }

  lemma {:induction false} SizeOfSnoc(ls: seq<Letter>, l: Letter, version: seq<byte>)
    ensures TotalSize(ls + [l], version) == TotalSize(ls, version) + Size(l, version)
  {
    hide Size;
    if ls == [] {
      assert ([l])[1..] == [] && ls + [l] == [l];
      assert TotalSize([l], version) == Size(l, version) + TotalSize([l][1..], version);
    } else {
      SizeOfSnoc(ls[1..], l, version);
      assert (ls + [l])[1..] == ls[1..] + [l];
    }
  }

  /** Since the old state: the environment refused something if this failed, or a request was too large;
      and none was if there are few bytes. */
  twostate predicate Fared(c: Conn, ok: bool, few: bool)
    reads c, c.inp, c.out
  {
    && c.Trouble() >= old(c.Trouble()) + (if ok then 0 else 1)
    && (few && old(c.Modest()) ==> StaysSmall(c) && (c.Willing() ==> ok))
  }

  method SendOne(a: Conn, b: Conn, ghost there: seq<Letter>, ghost back: seq<Letter>, l: Letter, version: seq<byte>)
    returns (ok: bool)
    requires Both(a, b, there, back, version) && l.Valid()
    modifies a`asked, a`overflows, a.out, a.out.data, a.tx
    ensures fresh(a.Repr() - old(a.Repr())) && b.Repr() == old(b.Repr())
    ensures ok ==> Both(a, b, there + [l], back, version)
    ensures Fared(a, ok, Size(l, version) <= MAX_CHUNK) && Fared(b, true, true)
  {
    hide Bytes, Refused, Codec.Encode, Codec.WellFormed;
    ghost var incoming := a.Incoming();
    ok := Post(a, b, there, l, version);
    assert a.Incoming() == incoming;
  }

  method TakeOne(a: Conn, b: Conn, ghost there: seq<Letter>, ghost back: seq<Letter>, mask: set<byte>,
                 version: seq<byte>)
    returns (ok: bool, m: Codec.Message)
    requires Both(a, b, there, back, version) && there != [] && there[0].pending.None?
    requires Codec.Tag(there[0].msg) in mask
    modifies b`asked, b`overflows, b.inp, b.inp.data, b.rx
    ensures fresh(b.Repr() - old(b.Repr())) && a.Repr() == old(a.Repr())
    ensures ok ==> Both(a, b, there[1..], back, version) && m == there[0].msg
    ensures Fared(b, ok, TotalSize(there, version) <= MAX_CHUNK) && Fared(a, true, true)
  {
    SizeOfBytes(there, version);
    hide Bytes, Codec.Tag, Refused, TotalSize;
    ok, m := Fetch(a, b, there, mask, version, version);
  }

  method Put(a: Conn, b: Conn, ms: seq<S.Msg>, ghost there: seq<Letter>, ghost back: seq<Letter>,
             m: S.Msg, l: Letter, version: seq<byte>)
    returns (ok: bool, ghost there': seq<Letter>)
    requires Both(a, b, there, back, version) && AllStandFor(there, ms) && StandsFor(l, m)
    modifies a.Repr()
    ensures fresh(a.Repr() - old(a.Repr())) && b.Repr() == old(b.Repr())
    ensures ok ==> Both(a, b, there', back, version) && AllStandFor(there', ms + [m])
    ensures Fared(a, ok, Size(l, version) <= MAX_CHUNK) && Fared(b, true, true)
    ensures TotalSize(there', version) == TotalSize(there, version) + Size(l, version)
  {
    hide Both, Size, TotalSize, Fared;
    StandForSnoc(there, ms, l, m);
    SizeOfSnoc(there, l, version);
    there' := there + [l];
    ok := SendOne(a, b, there, back, l, version);
  }

  method Take(a: Conn, b: Conn, ms: seq<S.Msg>, ghost there: seq<Letter>, ghost back: seq<Letter>,
              tags: set<char>, version: seq<byte>)
    returns (ok: bool, got: Codec.Message, ghost there': seq<Letter>)
    requires Both(a, b, there, back, version) && AllStandFor(there, ms) && ms != [] && S.Tag(ms[0]) in tags
    modifies b.Repr()
    ensures fresh(b.Repr() - old(b.Repr())) && a.Repr() == old(a.Repr())
    ensures ok ==> Both(a, b, there', back, version) && AllStandFor(there', ms[1..])
    ensures ok ==> there == [Letter(got, None)] + there'
    ensures Fared(b, ok, TotalSize(there, version) <= MAX_CHUNK) && Fared(a, true, true)
    ensures TotalSize(there', version) <= TotalSize(there, version)
  {
    hide Both, Wired, Size, Fared;
    StandForRest(there, ms);
    WiredTag(there[0].msg, ms[0]);
    there' := there[1..];
    ok, got := TakeOne(a, b, there, back, MaskBytes(tags), version);
  }

  /** What is read off the wire is what the state machine takes from its queue. */
  lemma GotIsWired(there: seq<Letter>, ms: seq<S.Msg>, got: Codec.Message, there': seq<Letter>)
    requires AllStandFor(there, ms) && ms != [] && there == [Letter(got, None)] + there'
    ensures Wired(got, ms[0])
  {
    assert there[0] == Letter(got, None);
  }

  function InFlightSize(toC: seq<Letter>, toQ: seq<Letter>, version: seq<byte>): nat {
    TotalSize(toC, version) + TotalSize(toQ, version)
  }

  /** One step of the conversation over the wire. It succeeds, with the message taken or put as the
      state machine says and no other kind, unless socket or memory fail or a request is too large: no receive ever
      fails on its mask or finds its queue empty. */
  method Perform(s: S.State, a: S.Action, qe: Conn, cl: Conn, ghost toC: seq<Letter>, ghost toQ: seq<Letter>,
                 l: Letter, version: seq<byte>)
    returns (ok: bool, got: Option<Codec.Message>, ghost toC': seq<Letter>, ghost toQ': seq<Letter>)
    requires S.Inv(s) && S.Enabled(s, a) && !S.Intrudes(a) && Carries(s, qe, cl, toC, toQ, version)
    requires (S.MoveOf(s, a).ToC? || S.MoveOf(s, a).ToQ?) ==> StandsFor(l, S.MoveOf(s, a).sent)
    modifies qe.Repr(), cl.Repr()
    ensures fresh(qe.Repr() - old(qe.Repr())) && fresh(cl.Repr() - old(cl.Repr()))
    ensures ok ==> S.Inv(S.Step(s, a)) && Carries(S.Step(s, a), qe, cl, toC', toQ', version)
    ensures ok ==> (got.Some? <==> S.MoveOf(s, a).FromC? || S.MoveOf(s, a).FromQ?)
    ensures ok && S.MoveOf(s, a).FromC? ==> s.toC != [] && Wired(got.value, s.toC[0])
    ensures ok && S.MoveOf(s, a).FromQ? ==> s.toQ != [] && Wired(got.value, s.toQ[0])
    ensures qe.Trouble() + cl.Trouble() >= old(qe.Trouble() + cl.Trouble()) + if ok then 0 else 1
    ensures InFlightSize(toC', toQ', version) <= InFlightSize(toC, toQ, version) + Size(l, version)
    ensures old(qe.Modest() && cl.Modest()) && InFlightSize(toC, toQ, version) + Size(l, version) <= MAX_CHUNK ==>
              StaysSmall(qe) && StaysSmall(cl) && (qe.Willing() && cl.Willing() ==> ok)
  {
    S.StepKeeps(s, a);
    S.QueuesMove(s, a);
    S.MaskAdmits(s, a);
    hide S.Inv, S.Step, S.Enabled, S.Accepts, S.MoveOf, Both, AllStandFor, Wired, Refused, Size, TotalSize;
    ok, got, toC', toQ' := true, None, toC, toQ;
    var move := S.MoveOf(s, a);
    if move.ToC? {
      ok, toC' := Put(qe, cl, s.toC, toC, toQ, move.sent, l, version);
    } else if move.FromC? {
      var m;
      ok, m, toC' := Take(qe, cl, s.toC, toC, toQ, S.Accepts(s, a), version);
      if ok {
        GotIsWired(toC, s.toC, m, toC');
        got := Some(m);
      }
    } else if !move.Stay? {
      BothSwap(qe, cl, toC, toQ, version);
      if move.ToQ? {
        ok, toQ' := Put(cl, qe, s.toQ, toQ, toC, move.sent, l, version);
      } else {
        var m;
        ok, m, toQ' := Take(cl, qe, s.toQ, toQ, toC, S.Accepts(s, a), version);
        if ok {
          GotIsWired(toQ, s.toQ, m, toQ');
          got := Some(m);
        }
      }
      BothSwap(cl, qe, toQ', toC, version);
    }
  }

  /** A letter for every message that the run sends. */
  predicate LettersFit(s: S.State, acts: seq<S.Action>, ls: seq<Letter>)
    requires S.Runs(s, acts)
    decreases |acts|
  {
    && |ls| == |acts|
    && (acts == [] ||
        (&& ((S.MoveOf(s, acts[0]).ToC? || S.MoveOf(s, acts[0]).ToQ?) ==> StandsFor(ls[0], S.MoveOf(s, acts[0]).sent))
         && LettersFit(S.Step(s, acts[0]), acts[1..], ls[1..])))
  }

  /** Whole runs: the connections carry every run of the state machine, so all that holds of its states
      holds of the conversation over the wire as long as nothing below fails. A run of few bytes goes
      through to its end if socket and memory refuse nothing. */
  method Converse(s: S.State, acts: seq<S.Action>, ls: seq<Letter>, qe: Conn, cl: Conn,
                  ghost toC: seq<Letter>, ghost toQ: seq<Letter>, version: seq<byte>)
    returns (ok: bool, ghost toC': seq<Letter>, ghost toQ': seq<Letter>)
    requires S.Inv(s) && S.Runs(s, acts) && S.Unmixed(acts) && LettersFit(s, acts, ls)
    requires Carries(s, qe, cl, toC, toQ, version)
    modifies qe.Repr(), cl.Repr()
    ensures ok ==> Carries(S.Exec(s, acts), qe, cl, toC', toQ', version)
    ensures qe.Trouble() + cl.Trouble() >= old(qe.Trouble() + cl.Trouble()) + if ok then 0 else 1
    ensures old(qe.Modest() && cl.Modest()) && InFlightSize(toC, toQ, version) + TotalSize(ls, version) <= MAX_CHUNK ==>
              (qe.Willing() && cl.Willing() ==> ok)
    decreases |acts|
  {
    hide S.Inv, S.Step, S.Enabled, S.MoveOf, S.Intrudes, Both, AllStandFor, StandsFor, Wired, Refused, Size,
         InFlightSize;
    ok, toC', toQ' := true, toC, toQ;
    if acts != [] {
      var got;
      ok, got, toC', toQ' := Perform(s, acts[0], qe, cl, toC, toQ, ls[0], version);
      if ok {
        ok, toC', toQ' := Converse(S.Step(s, acts[0]), acts[1..], ls[1..], qe, cl, toC', toQ', version);
      }
    }
  }
}
