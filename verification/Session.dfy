/** The conversation between the database backend (QE) and the Python client over one
    connection: the ping handshake, then calls that nest to any depth.

    While a call runs, its user code may log (one way) or make a request and wait for the
    reply; executing a statement or a plan on the QE may start further calls, which the client
    serves while it waits.  Both sides are state machines that take one step at a time, joined by
    two FIFO queues.  `call` numbers are history: they name the invocation a frame or a message
    belongs to and do not travel on the wire.

    A result is not written in one go: converting the elements of an array may run user code while
    head and tail of the result are apart.  What that code sends then lands inside the result.
 */
module Session {

  // ---------------------------------------------------------------- messages

  datatype Request = Statement | Execute | Prepare | Unprepare | Quote | Subtransaction

  /** Requests whose handling runs SQL, and so may call functions again. */
  predicate RunsSql(r: Request) { r.Statement? || r.Execute? }

  datatype Msg =
    | Ping
    | Call(call: nat)
    | Result(call: nat)
    | Log(call: nat)
    | Ask(request: Request, call: nat)
    | Raw(call: nat)
    | QuoteResult(call: nat)
    | SubtransactionResult(call: nat)
    | Garbled(call: nat)  // a result with another message among its bytes

  function Tag(m: Msg): char {
    match m
    case Ping => 'P'
    case Call(_) => 'C'
    case Result(_) => 'R'
    case Log(_) => 'L'
    case Ask(Quote, _) => 'Q'
    case Ask(Subtransaction, _) => 'N'
    case Ask(_, _) => 'S'
    case Raw(_) => 'W'
    case QuoteResult(_) => 'O'
    case SubtransactionResult(_) => 'Z'
    case Garbled(_) => 'R'
  }

  /** What the QE answers, and what the client takes the answer to be. */
  function Reply(r: Request, call: nat): Msg {
    match r
    case Statement => Result(call)
    case Execute => Result(call)
    case Prepare => Raw(call)
    case Unprepare => Raw(call)
    case Quote => QuoteResult(call)
    case Subtransaction => SubtransactionResult(call)
  }

  // ------------------------------------------------------------------- state

  datatype QPhase = Waiting | Executing | Replying(reply: Msg)
  datatype QFrame = QFrame(call: nat, phase: QPhase)
  datatype CPhase = Running | Writing | Awaiting(request: Request, writing: bool)
  datatype CFrame = CFrame(call: nat, phase: CPhase)
  datatype QStage = Unconnected | WaitPong | Connected
  datatype CStage = WaitPing | Echo | Serving

  /** Stacks grow at the end.  `error` records that a receiver got a message outside its mask,
      one its dispatch does not know, or one it takes for another kind. */
  datatype State = State(
    qStage: QStage, cStage: CStage, qs: seq<QFrame>, cs: seq<CFrame>,
    toC: seq<Msg>, toQ: seq<Msg>, next: nat, error: bool)

  const INIT: State := State(Unconnected, WaitPing, [], [], [], [], 0, false)

  /** The mask a waiting client passes to its receive. */
  function Mask(s: State): set<char> {
    if s.cStage == WaitPing then {'P'}
    else if s.cs == [] then {'C'}
    else match s.cs[|s.cs| - 1].phase
      case Running => {}
      case Writing => {}
      case Awaiting(Prepare, _) => {'W'}
      case Awaiting(Unprepare, _) => {'W'}
      case Awaiting(Quote, _) => {'O'}
      case Awaiting(_, _) => {'C', 'R', 'Z'}
  }

  predicate QTop(s: State, phase: QPhase) {
    s.qStage == Connected && s.qs != [] && s.qs[|s.qs| - 1].phase == phase
  }

  predicate QWaiting(s: State) { s.qStage == WaitPong || QTop(s, Waiting) }

  predicate QIdle(s: State) { s.qStage == Connected && s.qs == [] }

  predicate CTop(s: State, phase: CPhase) {
    s.cStage == Serving && s.cs != [] && s.cs[|s.cs| - 1].phase == phase
  }

  predicate CListens(s: State) {
    s.cStage == Serving && !CTop(s, Running) && !CTop(s, Writing)
  }

  predicate CWaiting(s: State) { s.cStage == WaitPing || CListens(s) }

  function SetQ(s: State, phase: QPhase): State requires s.qs != [] {
    var n := |s.qs| - 1;
    s.(qs := s.qs[..n] + [QFrame(s.qs[n].call, phase)])
  }

  function SetC(s: State, phase: CPhase): State requires s.cs != [] {
    var n := |s.cs| - 1;
    s.(cs := s.cs[..n] + [CFrame(s.cs[n].call, phase)])
  }

  // ------------------------------------------------------------------- steps

  datatype Action =
    | QPing | QPong | QCall | QReceive | QReply | QFinish
    | CPing | CEcho | CReceive | CLog | CAsk(request: Request) | CStart | CReturn
    | CLogInside | CAskInside(request: Request)

  /** User code that runs while its result is being written sends something. */
  predicate Intrudes(a: Action) { a.CLogInside? || a.CAskInside? }

  predicate Unmixed(acts: seq<Action>) { forall i | 0 <= i < |acts| :: !Intrudes(acts[i]) }

  /** The side concerned may take this step. */
  predicate Enabled(s: State, a: Action) {
    match a
    case QPing => s.qStage == Unconnected
    case QPong => s.qStage == WaitPong && s.toQ != []
    case QCall => QIdle(s) || QTop(s, Executing)
    case QReceive => QTop(s, Waiting) && s.toQ != []
    case QReply => s.qStage == Connected && s.qs != [] && s.qs[|s.qs| - 1].phase.Replying?
    case QFinish => QTop(s, Executing)
    case CPing => s.cStage == WaitPing && s.toC != []
    case CEcho => s.cStage == Echo
    case CReceive => CListens(s) && s.toC != []
    case CLog => CTop(s, Running)
    case CAsk(_) => CTop(s, Running)
    case CStart => CTop(s, Running)
    case CReturn => CTop(s, Writing)
    case CLogInside => CTop(s, Writing)
    case CAskInside(_) => CTop(s, Writing)
  }

  /** The loop of plcontainer_get_result: dispatch on the message just received. */
  function QDispatch(s: State, m: Msg): State
    requires s.qs != []
  {
    var call := s.qs[|s.qs| - 1].call;
    match m
    case Result(_) => s.(qs := s.qs[..|s.qs| - 1], error := s.error || m.call != call)
    case Log(_) => s
    case Ask(r, _) => SetQ(s, if RunsSql(r) then Executing else Replying(Reply(r, call)))
    case _ => s.(error := true)
  }

  /** A client receive: the mask first, then a nested call or the reply asked for. */
  function CDispatch(s: State, m: Msg): State {
    if Tag(m) !in Mask(s) then s.(error := true)
    else if m.Call? then s.(cs := s.cs + [CFrame(m.call, Running)])
    else if s.cs == [] then s.(error := true)
    else
      var top := s.cs[|s.cs| - 1];
      if top.phase.Awaiting? && m == Reply(top.phase.request, top.call)
      then SetC(s, if top.phase.writing then Writing else Running)
      else s.(error := true)
  }

  function Step(s: State, a: Action): State
    requires Enabled(s, a)
  {
    match a
    case QPing => s.(qStage := WaitPong, toC := s.toC + [Ping])
    case QPong => s.(qStage := Connected, toQ := s.toQ[1..], error := s.error || !s.toQ[0].Ping?)
    case QCall => s.(qs := s.qs + [QFrame(s.next, Waiting)], toC := s.toC + [Call(s.next)], next := s.next + 1)
    case QReceive => QDispatch(s.(toQ := s.toQ[1..]), s.toQ[0])
    case QReply => SetQ(s.(toC := s.toC + [s.qs[|s.qs| - 1].phase.reply]), Waiting)
    case QFinish => SetQ(s.(toC := s.toC + [Result(s.qs[|s.qs| - 1].call)]), Waiting)
    case CPing => s.(cStage := Echo, toC := s.toC[1..], error := s.error || Tag(s.toC[0]) !in Mask(s))
    case CEcho => s.(cStage := Serving, toQ := s.toQ + [Ping])
    case CReceive => CDispatch(s.(toC := s.toC[1..]), s.toC[0])
    case CLog => s.(toQ := s.toQ + [Log(s.cs[|s.cs| - 1].call)])
    case CAsk(r) => SetC(s.(toQ := s.toQ + [Ask(r, s.cs[|s.cs| - 1].call)]), Awaiting(r, false))
    case CStart => SetC(s, Writing)
    case CReturn => s.(toQ := s.toQ + [Result(s.cs[|s.cs| - 1].call)], cs := s.cs[..|s.cs| - 1])
    case CLogInside => s.(toQ := s.toQ + [Garbled(s.cs[|s.cs| - 1].call)])
    case CAskInside(r) => SetC(s.(toQ := s.toQ + [Garbled(s.cs[|s.cs| - 1].call)]), Awaiting(r, true))
  }

  /** Every action of the list is enabled when its turn comes. */
  predicate Runs(s: State, acts: seq<Action>)
    decreases |acts|
  {
    acts == [] || (Enabled(s, acts[0]) && Runs(Step(s, acts[0]), acts[1..]))
  }

  function Exec(s: State, acts: seq<Action>): State
    requires Runs(s, acts)
    decreases |acts|
  {
    if acts == [] then s else Exec(Step(s, acts[0]), acts[1..])
  }

  // --------------------------------------------------------------- invariant

  predicate AllLogs(ms: seq<Msg>, call: nat) {
    forall i | 0 <= i < |ms| :: ms[i] == Log(call)
  }

  /** Any number of logs of a call, then this message. */
  predicate LogsThen(ms: seq<Msg>, call: nat, m: Msg) {
    ms != [] && ms[|ms| - 1] == m && AllLogs(ms[..|ms| - 1], call)
  }

  /** A suspended call: the QE executes SQL for it, the client waits for the result. */
  predicate Suspended(q: QFrame, c: CFrame) {
    && q.call == c.call && q.phase == Executing
    && c.phase.Awaiting? && RunsSql(c.phase.request) && !c.phase.writing
  }

  /** A request of the innermost call: under way, handled, or its reply under way. */
  predicate Asking(q: QFrame, r: Request, toC: seq<Msg>, toQ: seq<Msg>) {
    || (q.phase == Waiting && toC == [] && LogsThen(toQ, q.call, Ask(r, q.call)))
    || (q.phase == Waiting && toC == [Reply(r, q.call)] && toQ == [])
    || (RunsSql(r) && q.phase == Executing && toC == [] && toQ == [])
    || (!RunsSql(r) && q.phase == Replying(Reply(r, q.call)) && toC == [] && toQ == [])
  }

  /** The innermost call, while it has a frame on both sides. */
  predicate TopPair(q: QFrame, c: CFrame, toC: seq<Msg>, toQ: seq<Msg>) {
    && q.call == c.call
    && match c.phase
       case Running => q.phase == Waiting && toC == [] && AllLogs(toQ, q.call)
       case Writing => q.phase == Waiting && toC == [] && AllLogs(toQ, q.call)
       case Awaiting(r, writing) => !writing && Asking(q, r, toC, toQ)
  }

  /** The innermost call, while only the QE has a frame: its request or its result is under way. */
  predicate TopAlone(q: QFrame, toC: seq<Msg>, toQ: seq<Msg>) {
    && q.phase == Waiting
    && ((toC == [Call(q.call)] && toQ == [])
        || (toC == [] && LogsThen(toQ, q.call, Result(q.call))))
  }

  predicate Talk(qs: seq<QFrame>, cs: seq<CFrame>, toC: seq<Msg>, toQ: seq<Msg>) {
    if qs == [] then cs == [] && toC == [] && toQ == []
    else
      var n := |qs| - 1;
      && n <= |cs| <= n + 1
      && (forall i | 0 <= i < n :: Suspended(qs[i], cs[i]))
      && if |cs| == n then TopAlone(qs[n], toC, toQ) else TopPair(qs[n], cs[n], toC, toQ)
  }

  /** Every call has its own number, and inner calls are younger. */
  predicate Numbered(qs: seq<QFrame>, next: nat) {
    && (forall i | 0 <= i < |qs| :: qs[i].call < next)
    && (forall i, j | 0 <= i < j < |qs| :: qs[i].call < qs[j].call)
  }

  predicate Handshake(s: State) {
    && s.qs == [] && s.cs == []
    && match (s.qStage, s.cStage)
       case (Unconnected, WaitPing) => s.toC == [] && s.toQ == []
       case (WaitPong, WaitPing) => s.toC == [Ping] && s.toQ == []
       case (WaitPong, Echo) => s.toC == [] && s.toQ == []
       case (WaitPong, Serving) => s.toC == [] && s.toQ == [Ping]
       case _ => false
  }

  predicate Inv(s: State) {
    && !s.error
    && Numbered(s.qs, s.next)
    && if s.qStage == Connected then s.cStage == Serving && Talk(s.qs, s.cs, s.toC, s.toQ)
       else Handshake(s)
  }

  lemma LogsThenAhead(ms: seq<Msg>, call: nat, m: Msg)
    requires LogsThen(ms, call, m)
    ensures |ms| == 1 ==> ms[0] == m
    ensures |ms| > 1 ==> ms[0] == Log(call) && LogsThen(ms[1..], call, m)
  {
    if |ms| > 1 {
      assert ms[..|ms| - 1][0] == Log(call);
      assert ms[1..][..|ms| - 2] == ms[..|ms| - 1][1..];
    }
  }

  lemma LogsAhead(ms: seq<Msg>, call: nat)
    requires AllLogs(ms, call) && ms != []
    ensures ms[0] == Log(call) && AllLogs(ms[1..], call)
  {
  }

  lemma QReceiveKeeps(s: State)
    requires Inv(s) && Enabled(s, QReceive)
    ensures Inv(Step(s, QReceive))
  {
    var n := |s.qs| - 1;
    var call := s.qs[n].call;
    if |s.cs| == n {
      LogsThenAhead(s.toQ, call, Result(call));
    } else if !s.cs[n].phase.Awaiting? {
      LogsAhead(s.toQ, call);
    } else {
      LogsThenAhead(s.toQ, call, Ask(s.cs[n].phase.request, call));
    }
  }

  lemma HandshakeKeeps(s: State, a: Action)
    requires Inv(s) && Enabled(s, a) && (a.QPing? || a.QPong? || a.CPing? || a.CEcho?)
    ensures Inv(Step(s, a))
  {
    if a.QPong? {
      assert s.toQ[1..] == [];
    } else if a.CPing? {
      assert s.toC[1..] == [];
    } else if a.QPing? {
      assert s.toC + [Ping] == [Ping];
    } else {
      assert s.toQ + [Ping] == [Ping];
    }
  }

  lemma QCallKeeps(s: State)
    requires Inv(s) && Enabled(s, QCall)
    ensures Inv(Step(s, QCall))
  {
    hide LogsThen, AllLogs;
    if s.qs != [] {
      var n := |s.qs| - 1;
      assert TopPair(s.qs[n], s.cs[n], s.toC, s.toQ);
    }
  }

  lemma QReplyKeeps(s: State)
    requires Inv(s) && Enabled(s, QReply)
    ensures Inv(Step(s, QReply))
  {
    hide LogsThen, AllLogs;
    var n := |s.qs| - 1;
    assert TopPair(s.qs[n], s.cs[n], s.toC, s.toQ);
  }

  lemma QFinishKeeps(s: State)
    requires Inv(s) && Enabled(s, QFinish)
    ensures Inv(Step(s, QFinish))
  {
    hide LogsThen, AllLogs;
    var n := |s.qs| - 1;
    assert TopPair(s.qs[n], s.cs[n], s.toC, s.toQ);
  }

  /** Whatever a running call sends goes behind its logs. */
  lemma LogsSnoc(ms: seq<Msg>, call: nat, m: Msg)
    requires AllLogs(ms, call)
    ensures LogsThen(ms + [m], call, m) && (m == Log(call) ==> AllLogs(ms + [m], call))
  {
    assert (ms + [m])[..|ms|] == ms;
  }

  lemma CLogKeeps(s: State)
    requires Inv(s) && Enabled(s, CLog)
    ensures Inv(Step(s, CLog))
  {
    var n := |s.qs| - 1;
    assert TopPair(s.qs[n], s.cs[n], s.toC, s.toQ);
    LogsSnoc(s.toQ, s.qs[n].call, Log(s.qs[n].call));
    hide LogsThen, AllLogs;
  }

  lemma CAskKeeps(s: State, r: Request)
    requires Inv(s) && Enabled(s, CAsk(r))
    ensures Inv(Step(s, CAsk(r)))
  {
    var n := |s.qs| - 1;
    assert TopPair(s.qs[n], s.cs[n], s.toC, s.toQ);
    LogsSnoc(s.toQ, s.qs[n].call, Ask(r, s.qs[n].call));
    hide LogsThen, AllLogs;
  }

  lemma CStartKeeps(s: State)
    requires Inv(s) && Enabled(s, CStart)
    ensures Inv(Step(s, CStart))
  {
    var n := |s.qs| - 1;
    assert TopPair(s.qs[n], s.cs[n], s.toC, s.toQ);
    hide LogsThen, AllLogs;
  }

  lemma CReturnKeeps(s: State)
    requires Inv(s) && Enabled(s, CReturn)
    ensures Inv(Step(s, CReturn))
  {
    var n := |s.qs| - 1;
    assert TopPair(s.qs[n], s.cs[n], s.toC, s.toQ);
    LogsSnoc(s.toQ, s.qs[n].call, Result(s.qs[n].call));
    hide LogsThen, AllLogs;
  }

  lemma CReceiveKeeps(s: State)
    requires Inv(s) && Enabled(s, CReceive)
    ensures Inv(Step(s, CReceive))
  {
    hide LogsThen;
  }

  lemma StepKeeps(s: State, a: Action)
    requires Inv(s) && Enabled(s, a) && !Intrudes(a)
    ensures Inv(Step(s, a))
  {
    hide Inv, Enabled, Step;
    match a
    case QCall => QCallKeeps(s);
    case QReceive => QReceiveKeeps(s);
    case QReply => QReplyKeeps(s);
    case QFinish => QFinishKeeps(s);
    case CReceive => CReceiveKeeps(s);
    case CLog => CLogKeeps(s);
    case CAsk(r) => CAskKeeps(s, r);
    case CStart => CStartKeeps(s);
    case CReturn => CReturnKeeps(s);
    case QPing => HandshakeKeeps(s, a);
    case QPong => HandshakeKeeps(s, a);
    case CPing => HandshakeKeeps(s, a);
    case CEcho => HandshakeKeeps(s, a);
  }

  lemma {:induction false} RunKeeps(s: State, acts: seq<Action>)
    requires Inv(s) && Runs(s, acts) && Unmixed(acts)
    ensures Inv(Exec(s, acts))
    decreases |acts|
  {
    hide Inv, Enabled, Step;
    if acts != [] {
      StepKeeps(s, acts[0]);
      RunKeeps(Step(s, acts[0]), acts[1..]);
    }
  }

  // ---------------------------------------------------------- what it promises

  /** The client's stack is the QE's, call by call, except that the innermost call may be under
      way to the client or its result under way back. */
  predicate Mirrored(s: State) {
    && |s.qs| - 1 <= |s.cs| <= |s.qs|
    && (forall i | 0 <= i < |s.cs| :: s.cs[i].call == s.qs[i].call)
    && (forall i, j | 0 <= i < j < |s.qs| :: s.qs[i].call != s.qs[j].call)
  }

  predicate Deadlocked(s: State) {
    QWaiting(s) && CWaiting(s) && s.toC == [] && s.toQ == []
  }

  /** The next message of a waiting receiver is one it accepts and knows how to handle. */
  predicate Expected(s: State) {
    && (CWaiting(s) && s.toC != [] ==> Tag(s.toC[0]) in Mask(s))
    && (QWaiting(s) && s.toQ != [] ==>
          Tag(s.toQ[0]) in (if s.qStage == WaitPong then {'P'} else {'R', 'S', 'L', 'Q', 'N'}))
  }

  /** Logs aside, one message at most is under way, whichever way it goes. */
  predicate HalfDuplex(s: State) {
    && |s.toC| <= 1
    && (forall i | 0 <= i < |s.toQ| - 1 :: s.toQ[i].Log?)
    && (s.toC != [] ==> s.toQ == [])
  }

  lemma InvMeans(s: State)
    requires Inv(s)
    ensures !s.error && Mirrored(s) && !Deadlocked(s)
  {
    if s.qStage == Connected && s.qs != [] {
      var n := |s.qs| - 1;
      assert forall i | 0 <= i < n :: Suspended(s.qs[i], s.cs[i]);
    }
  }

  lemma InvMeansOrderly(s: State)
    requires Inv(s)
    ensures Expected(s) && HalfDuplex(s)
  {
    if s.qStage == Connected && s.qs != [] {
      var n, ms := |s.qs| - 1, s.toQ;
      assert forall i | 0 <= i < |ms| - 1 :: ms[i] == ms[..|ms| - 1][i];
      if |s.cs| == n && s.toC == [] {
        LogsThenAhead(ms, s.qs[n].call, Result(s.qs[n].call));
      }
    }
  }

  /** In every run in which nothing is sent inside a result, at every depth of nesting: no receiver ever
      meets a message outside its mask or takes one for another kind, every result goes to the call
      that it belongs to, the two stacks mirror each other, and the two sides never wait for each other. */
  lemma EveryRunIsSafe(acts: seq<Action>)
    requires Runs(INIT, acts) && Unmixed(acts)
    ensures var s := Exec(INIT, acts);
            !s.error && Mirrored(s) && !Deadlocked(s) && Expected(s) && HalfDuplex(s)
  {
    RunKeeps(INIT, acts);
    InvMeans(Exec(INIT, acts));
    InvMeansOrderly(Exec(INIT, acts));
  }

  // ------------------------------------------------------------- completion

  predicate AtRest(s: State) {
    s.qStage == Connected && s.qs == [] && s.cs == [] && s.toC == [] && s.toQ == []
  }

  /** The step to take when user code makes no further requests and SQL no further calls. */
  function Drain(s: State): Action
    requires Inv(s) && !AtRest(s)
  {
    if s.qStage == Unconnected then QPing
    else if s.qStage == WaitPong then
      if s.cStage == WaitPing then CPing else if s.cStage == Echo then CEcho else QPong
    else if s.toC != [] then CReceive
    else if s.toQ != [] then QReceive
    else if QTop(s, Executing) then QFinish
    else if CTop(s, Running) then CStart
    else if CTop(s, Writing) then CReturn
    else QReply
  }

  function HandshakeLeft(s: State): nat {
    if s.qStage == Unconnected then 4
    else if s.qStage == Connected then 0
    else if s.cStage == WaitPing then 3
    else if s.cStage == Echo then 2
    else 1
  }

  /** How much the innermost call has before it: fewer steps remain from later phases. */
  function PhaseLeft(s: State): nat {
    if s.qs == [] then 0
    else if |s.cs| < |s.qs| then (if s.toC != [] then 6 else 0)
    else if CTop(s, Writing) then 1
    else if CTop(s, Running) then 2
    else if s.toC != [] then 3
    else if s.toQ == [] then 4
    else 5
  }

  predicate Closer(s': State, s: State) {
    if HandshakeLeft(s') != HandshakeLeft(s) then HandshakeLeft(s') < HandshakeLeft(s)
    else if |s'.qs| != |s.qs| then |s'.qs| < |s.qs|
    else if PhaseLeft(s') != PhaseLeft(s) then PhaseLeft(s') < PhaseLeft(s)
    else |s'.toQ| < |s.toQ|
  }

  lemma DrainAdvances(s: State)
    requires Inv(s) && !AtRest(s)
    ensures Enabled(s, Drain(s)) && !Intrudes(Drain(s)) && Closer(Step(s, Drain(s)), s)
  {
    if s.qStage == Connected && s.toC == [] && s.toQ != [] {
      DrainReceives(s);
    } else {
      DrainActs(s);
    }
  }

  lemma DrainReceives(s: State)
    requires Inv(s) && !AtRest(s) && s.qStage == Connected && s.toC == [] && s.toQ != []
    ensures Enabled(s, QReceive) && Closer(Step(s, QReceive), s)
  {
    var n := |s.qs| - 1;
    var call := s.qs[n].call;
    if |s.cs| == n {
      LogsThenAhead(s.toQ, call, Result(call));
    } else if !s.cs[n].phase.Awaiting? {
      LogsAhead(s.toQ, call);
    } else {
      LogsThenAhead(s.toQ, call, Ask(s.cs[n].phase.request, call));
    }
  }

  lemma DrainActs(s: State)
    requires Inv(s) && !AtRest(s) && !(s.qStage == Connected && s.toC == [] && s.toQ != [])
    ensures Enabled(s, Drain(s)) && Closer(Step(s, Drain(s)), s)
  {
  }

  /** Every reachable state, however deep, can be brought to rest with all calls returned: the
      conversation has no trap in it. */
  lemma {:induction false} CanFinish(s: State) returns (acts: seq<Action>)
    requires Inv(s)
    ensures Runs(s, acts) && Unmixed(acts) && AtRest(Exec(s, acts))
    decreases HandshakeLeft(s), |s.qs|, PhaseLeft(s), |s.toQ|
  {
    if AtRest(s) {
      acts := [];
    } else {
      DrainAdvances(s);
      StepKeeps(s, Drain(s));
      var s' := Step(s, Drain(s));
      assert Closer(s', s);
      hide Inv, Step, Enabled, Drain, AtRest, Intrudes;
      var rest := CanFinish(s');
      acts := [Drain(s)] + rest;
      assert acts[1..] == rest;
    }
  }

  lemma EveryRunCanFinish(acts: seq<Action>)
    requires Runs(INIT, acts) && Unmixed(acts)
    ensures exists more ::
              Runs(Exec(INIT, acts), more) && Unmixed(more) && AtRest(Exec(Exec(INIT, acts), more))
  {
    RunKeeps(INIT, acts);
    var more := CanFinish(Exec(INIT, acts));
  }

  // ------------------------------------------------------------- nesting

  lemma {:induction false} RunsOn(s: State, a: seq<Action>, b: seq<Action>)
    requires Runs(s, a) && Runs(Exec(s, a), b)
    ensures Runs(s, a + b) && Exec(s, a + b) == Exec(Exec(s, a), b)
    decreases |a|
  {
    hide Step, Enabled;
    if a == [] {
      assert a + b == b;
    } else {
      RunsOn(Step(s, a[0]), a[1..], b);
      assert (a + b)[0] == a[0] && (a + b)[1..] == a[1..] + b;
    }
  }

  lemma RunOfOne(s: State, a: Action)
    requires Enabled(s, a)
    ensures Runs(s, [a]) && Exec(s, [a]) == Step(s, a)
  {
    hide Step, Enabled;
    assert [a][1..] == [];
    assert Runs(Step(s, a), []) && Exec(Step(s, a), []) == Step(s, a);
  }

  lemma RunOfTwo(s: State, a: Action, b: Action)
    requires Enabled(s, a) && Enabled(Step(s, a), b)
    ensures Runs(s, [a, b]) && Exec(s, [a, b]) == Step(Step(s, a), b)
  {
    hide Step, Enabled;
    RunOfOne(s, a);
    RunOfOne(Step(s, a), b);
    RunsOn(s, [a], [b]);
    assert [a] + [b] == [a, b];
  }

  /** Nothing is under way, and the innermost call, if any, is running. */
  predicate Quiet(s: State) {
    s.qStage == Connected && s.toC == [] && s.toQ == [] && (s.qs != [] ==> CTop(s, Running))
  }

  /** While SQL is executed nothing is under way and the client listens for calls. */
  lemma SqlIsQuiet(s: State)
    requires Inv(s) && (QIdle(s) || QTop(s, Executing))
    ensures s.toC == [] && s.toQ == [] && |s.qs| == |s.cs| && CListens(s) && s.cStage == Serving && 'C' in Mask(s)
  {
    if s.qs != [] {
      var n := |s.qs| - 1;
      assert TopPair(s.qs[n], s.cs[n], s.toC, s.toQ);
    }
  }

  lemma CallTaken(s: State, call: nat)
    requires s.cStage == Serving && CListens(s) && 'C' in Mask(s) && s.toC == [Call(call)]
    ensures Enabled(s, CReceive) && Step(s, CReceive) == s.(toC := [], cs := s.cs + [CFrame(call, Running)])
  {
    assert s.toC[1..] == [];
  }

  /** Whenever no call is active, or the backend executes a statement or a plan for the innermost one, it
      can start a call, and the client accepts it. */
  lemma CallStarts(s: State)
    requires Inv(s) && (QIdle(s) || QTop(s, Executing))
    ensures Runs(s, [QCall, CReceive])
    ensures Exec(s, [QCall, CReceive])
            == s.(qs := s.qs + [QFrame(s.next, Waiting)], cs := s.cs + [CFrame(s.next, Running)], next := s.next + 1)
  {
    SqlIsQuiet(s);
    var s1 := s.(qs := s.qs + [QFrame(s.next, Waiting)], toC := [Call(s.next)], next := s.next + 1);
    assert Enabled(s, QCall) && Step(s, QCall) == s1 && CListens(s1) && Mask(s1) == Mask(s);
    hide Inv, Step, Enabled, Mask, CListens;
    CallTaken(s1, s.next);
    RunOfTwo(s, QCall, CReceive);
  }

  /** For a running call the backend waits. */
  lemma QuietWaits(s: State)
    requires Inv(s) && Quiet(s) && s.qs != []
    ensures QTop(s, Waiting) && |s.cs| == |s.qs| && s.cs[|s.cs| - 1].call == s.qs[|s.qs| - 1].call
  {
    var n := |s.qs| - 1;
    assert TopPair(s.qs[n], s.cs[n], s.toC, s.toQ);
  }

  /** A running call can return, and its result goes to the frame below it. */
  lemma CallReturns(s: State)
    requires Inv(s) && Quiet(s) && s.qs != []
    ensures Runs(s, [CStart, CReturn] + [QReceive])
    ensures Exec(s, [CStart, CReturn] + [QReceive]) == s.(qs := s.qs[..|s.qs| - 1], cs := s.cs[..|s.cs| - 1])
  {
    QuietWaits(s);
    hide Inv;
    var n := |s.qs| - 1;
    var s1 := Step(s, CStart);
    assert s1 == SetC(s, Writing) && s1.cs[..n] == s.cs[..n] && CTop(s1, Writing) && QTop(s, Waiting);
    ResultSent(s1, s.qs[n].call);
    hide Step, Enabled;
    RunOfTwo(s, CStart, CReturn);
    RunOfOne(Step(s1, CReturn), QReceive);
    RunsOn(s, [CStart, CReturn], [QReceive]);
  }

  /** A result written goes to the backend's innermost call. */
  lemma ResultSent(s: State, call: nat)
    requires CTop(s, Writing) && QTop(s, Waiting) && s.toQ == [] && s.toC == []
    requires s.cs[|s.cs| - 1].call == call == s.qs[|s.qs| - 1].call
    ensures Enabled(s, CReturn) && Enabled(Step(s, CReturn), QReceive)
    ensures Step(Step(s, CReturn), QReceive) == s.(qs := s.qs[..|s.qs| - 1], cs := s.cs[..|s.cs| - 1])
  {
    var s1 := s.(cs := s.cs[..|s.cs| - 1], toQ := [Result(call)]);
    assert Step(s, CReturn) == s1 && s1.toQ[1..] == [];
  }

  /** So a call below SQL leaves everything as it was, the suspended calls included. */
  lemma NestedCallReturns(s: State)
    requires Inv(s) && (QIdle(s) || QTop(s, Executing))
    ensures var acts := [QCall, CReceive] + ([CStart, CReturn] + [QReceive]);
            Runs(s, acts) && Exec(s, acts) == s.(next := s.next + 1)
  {
    CallStarts(s);
    var s1 := Exec(s, [QCall, CReceive]);
    RunKeeps(s, [QCall, CReceive]);
    SqlIsQuiet(s);
    hide Inv, Step, Enabled, Runs, Exec;
    assert s1.qs[..|s.qs|] == s.qs && s1.cs[..|s.cs|] == s.cs;
    CallReturns(s1);
    RunsOn(s, [QCall, CReceive], [CStart, CReturn] + [QReceive]);
  }

  /** A running call can ask for SQL, and the backend then executes it. */
  lemma AsksForSql(s: State, r: Request)
    requires Inv(s) && Quiet(s) && s.qs != [] && RunsSql(r)
    ensures Runs(s, [CAsk(r), QReceive])
    ensures var s' := Exec(s, [CAsk(r), QReceive]);
            QTop(s', Executing) && |s'.qs| == |s.qs| && |s'.cs| == |s.cs|
  {
    QuietWaits(s);
    hide Inv;
    var n := |s.qs| - 1;
    var s1 := Step(s, CAsk(r));
    assert s1.toQ == [Ask(r, s.qs[n].call)] && s1.qs == s.qs && QTop(s1, Waiting);
    RunOfTwo(s, CAsk(r), QReceive);
  }

  /** With one request of the innermost call under way, or its reply. */
  function Awaits(s: State, r: Request): State
    requires s.cs != []
  {
    SetC(s, Awaiting(r, false))
  }

  lemma AskMade(s: State, r: Request)
    requires Inv(s) && Quiet(s) && s.qs != []
    ensures Enabled(s, CAsk(r)) && |s.cs| == |s.qs| && s.cs[|s.cs| - 1].call == s.qs[|s.qs| - 1].call
    ensures Step(s, CAsk(r)) == Awaits(s, r).(toQ := [Ask(r, s.cs[|s.cs| - 1].call)])
    ensures QTop(Step(s, CAsk(r)), Waiting)
  {
    QuietWaits(s);
    hide Inv;
  }

  lemma AwaitsThenRuns(s: State, r: Request)
    requires Quiet(s) && s.qs != []
    ensures SetC(Awaits(s, r), Running) == s && CTop(Awaits(s, r), Awaiting(r, false))
    ensures Awaits(s, r).cs[|s.cs| - 1].call == s.cs[|s.cs| - 1].call
  {
    var n := |s.cs| - 1;
    assert Awaits(s, r).cs[..n] == s.cs[..n];
    assert s.cs == s.cs[..n] + [CFrame(s.cs[n].call, Running)];
  }

  /** Every request of a running call can be made and answered, and the call then goes on as before. */
  lemma RequestAnswered(s: State, r: Request)
    requires Inv(s) && Quiet(s) && s.qs != []
    ensures var acts := [CAsk(r), QReceive] + [if RunsSql(r) then QFinish else QReply, CReceive];
            Runs(s, acts) && Exec(s, acts) == s
  {
    AskMade(s, r);
    AwaitsThenRuns(s, r);
    var call := s.cs[|s.cs| - 1].call;
    var s1 := Step(s, CAsk(r));
    assert s1.qs == s.qs && s1.toC == [];
    hide Inv, Step, Enabled, CTop, QTop, Reply;
    AskHandled(s1, r, call);
    var a := if RunsSql(r) then QFinish else QReply;
    var s3 := s1.(toQ := [], toC := [Reply(r, call)]);
    assert CTop(s3, Awaiting(r, false)) by {
      CTopIgnoresQueues(Awaits(s, r), s3, Awaiting(r, false));
    }
    ReplyTaken(s3, r, call);
    RunOfTwo(s, CAsk(r), QReceive);
    RunOfTwo(Step(s1, QReceive), a, CReceive);
    RunsOn(s, [CAsk(r), QReceive], [a, CReceive]);
  }

  lemma CTopIgnoresQueues(s: State, s': State, phase: CPhase)
    requires s'.cs == s.cs && s'.cStage == s.cStage
    ensures CTop(s', phase) <==> CTop(s, phase)
  {
  }

  /** The backend takes a request and sends the reply to it. */
  lemma AskHandled(s: State, r: Request, call: nat)
    requires QTop(s, Waiting) && s.qs[|s.qs| - 1].call == call && s.toQ == [Ask(r, call)] && s.toC == []
    ensures Enabled(s, QReceive)
    ensures var a := if RunsSql(r) then QFinish else QReply;
            var s2 := Step(s, QReceive);
            Enabled(s2, a) && Step(s2, a) == s.(toQ := [], toC := [Reply(r, call)])
  {
    var n := |s.qs| - 1;
    var phase := if RunsSql(r) then Executing else Replying(Reply(r, call));
    assert s.toQ[1..] == [];
    var s2 := s.(toQ := [], qs := s.qs[..n] + [QFrame(call, phase)]);
    assert Step(s, QReceive) == s2;
    assert s2.qs[..n] + [QFrame(call, Waiting)] == s.qs;
  }

  /** The client takes the reply it waits for. */
  lemma ReplyTaken(s: State, r: Request, call: nat)
    requires CTop(s, Awaiting(r, false)) && s.cs[|s.cs| - 1].call == call && s.toC == [Reply(r, call)]
    ensures Enabled(s, CReceive)
    ensures Step(s, CReceive) == s.(toC := [], cs := s.cs[..|s.cs| - 1] + [CFrame(call, Running)])
  {
    assert s.toC[1..] == [];
    assert Tag(Reply(r, call)) in Mask(s);
  }

  /** A log goes out at any time while a call runs and disturbs nothing. */
  lemma LogPasses(s: State)
    requires Inv(s) && Quiet(s) && s.qs != []
    ensures Runs(s, [CLog, QReceive]) && Exec(s, [CLog, QReceive]) == s
  {
    QuietWaits(s);
    hide Inv;
    LogRead(s);
    hide Step, Enabled;
    RunOfTwo(s, CLog, QReceive);
  }

  lemma LogRead(s: State)
    requires CTop(s, Running) && QTop(s, Waiting) && s.toQ == []
    ensures Enabled(s, CLog) && Enabled(Step(s, CLog), QReceive) && Step(Step(s, CLog), QReceive) == s
  {
    var s1 := s.(toQ := [Log(s.cs[|s.cs| - 1].call)]);
    assert Step(s, CLog) == s1 && s1.toQ[1..] == [];
  }

  /** Calls do nest to any depth: some run ends with n calls active on both sides, each but the last
      suspended in SQL of this kind. */
  lemma {:induction false} NestsToAnyDepth(n: nat, r: Request) returns (acts: seq<Action>)
    requires RunsSql(r)
    ensures Runs(INIT, acts) && Unmixed(acts)
    ensures var s := Exec(INIT, acts); Inv(s) && Quiet(s) && |s.qs| == |s.cs| == n
  {
    if n == 0 {
      acts := [QPing, CPing] + [CEcho, QPong];
      HandshakeRuns();
    } else {
      var before := NestsToAnyDepth(n - 1, r);
      var s := Exec(INIT, before);
      var ask := if n == 1 then [] else [CAsk(r), QReceive];
      if n > 1 {
        AsksForSql(s, r);
      }
      assert Runs(s, ask);
      RunKeeps(s, ask);
      var s1 := Exec(s, ask);
      assert QIdle(s1) || QTop(s1, Executing);
      CallStarts(s1);
      RunKeeps(s1, [QCall, CReceive]);
      AfterCallStarts(s1);
      hide Inv, Step, Enabled, Quiet, Runs, Exec, CTop;
      acts := before + ask + [QCall, CReceive];
      RunsOn(INIT, before, ask);
      RunsOn(INIT, before + ask, [QCall, CReceive]);
    }
  }

  lemma AfterCallStarts(s: State)
    requires Inv(s) && (QIdle(s) || QTop(s, Executing)) && Runs(s, [QCall, CReceive])
    ensures var s' := Exec(s, [QCall, CReceive]);
            Quiet(s') && |s'.qs| == |s.qs| + 1 && |s'.cs| == |s.cs| + 1 && |s.qs| == |s.cs|
  {
    CallStarts(s);
    SqlIsQuiet(s);
    hide Inv;
  }

  lemma HandshakeRuns()
    ensures var acts := [QPing, CPing] + [CEcho, QPong];
            Runs(INIT, acts) && Unmixed(acts) && Exec(INIT, acts) == INIT.(qStage := Connected, cStage := Serving)
    ensures Inv(INIT.(qStage := Connected, cStage := Serving))
  {
    var s1 := INIT.(qStage := WaitPong, toC := [Ping]);
    var s2 := INIT.(qStage := WaitPong, cStage := Echo);
    var s3 := INIT.(qStage := WaitPong, cStage := Serving, toQ := [Ping]);
    assert [] + [Ping] == [Ping] && [Ping][1..] == [];
    assert Step(INIT, QPing) == s1 && Step(s1, CPing) == s2;
    assert Step(s2, CEcho) == s3 && Step(s3, QPong) == INIT.(qStage := Connected, cStage := Serving);
    RunOfTwo(INIT, QPing, CPing);
    RunOfTwo(s2, CEcho, QPong);
    RunsOn(INIT, [QPing, CPing], [CEcho, QPong]);
  }

  // ------------------------------------------- why the premises are necessary

  /** The backend has misread something, or a garbled result is still on its way to it. */
  predicate Spoilt(s: State) {
    s.error || exists i | 0 <= i < |s.toQ| :: s.toQ[i].Garbled?
  }

  lemma StaysSpoilt(s: State, a: Action)
    requires Spoilt(s) && Enabled(s, a)
    ensures Spoilt(Step(s, a))
  {
    if !s.error {
      var i :| 0 <= i < |s.toQ| && s.toQ[i].Garbled?;
      var q := Step(s, a).toQ;
      if a.QReceive? || a.QPong? {
        assert i > 0 ==> q[i - 1] == s.toQ[i];
      } else {
        assert q[i] == s.toQ[i];
      }
    }
  }

  lemma Spoils(s: State, a: Action)
    requires Enabled(s, a) && Intrudes(a)
    ensures Spoilt(Step(s, a))
  {
    assert Step(s, a).toQ[|s.toQ|].Garbled?;
  }

  lemma {:induction false} RunSpoilt(s: State, acts: seq<Action>)
    requires Runs(s, acts) && (Spoilt(s) || !Unmixed(acts))
    ensures Spoilt(Exec(s, acts))
    decreases |acts|
  {
    hide Step, Enabled, Spoilt, Intrudes;
    if acts != [] {
      var a := acts[0];
      if Spoilt(s) {
        StaysSpoilt(s, a);
      } else if Intrudes(a) {
        Spoils(s, a);
      } else {
        var i :| 0 <= i < |acts| && Intrudes(acts[i]);
        assert acts[1..][i - 1] == acts[i];
      }
      RunSpoilt(Step(s, a), acts[1..]);
    }
  }

  /** That nothing is sent inside a result is necessary as well: a run that comes to rest is free of
      errors exactly when nothing was. Before it comes to rest, the backend has met an error or has
      not yet read the garbled result. */
  lemma UnharmedIff(acts: seq<Action>)
    requires Runs(INIT, acts)
    ensures AtRest(Exec(INIT, acts)) ==> (!Exec(INIT, acts).error <==> Unmixed(acts))
    ensures Spoilt(Exec(INIT, acts)) <==> !Unmixed(acts)
  {
    if Unmixed(acts) {
      RunKeeps(INIT, acts);
      NotSpoilt(Exec(INIT, acts));
    } else {
      RunSpoilt(INIT, acts);
    }
  }

  lemma NotSpoilt(s: State)
    requires Inv(s)
    ensures !Spoilt(s)
  {
    if s.qStage == Connected && s.qs != [] {
      var n, ms := |s.qs| - 1, s.toQ;
      assert forall i | 0 <= i < |ms| - 1 :: ms[i] == ms[..|ms| - 1][i];
    }
  }

  function Receives(n: nat): (acts: seq<Action>)
    ensures |acts| == n
  {
    seq(n, _ => QReceive)
  }

  /** Behind any number of logs. */
  lemma {:induction false} ReadsUpToGarbled(s: State, call: nat)
    requires QTop(s, Waiting) && LogsThen(s.toQ, call, Garbled(call))
    ensures Runs(s, Receives(|s.toQ|)) && Exec(s, Receives(|s.toQ|)).error
    decreases |s.toQ|
  {
    var n := |s.toQ|;
    LogsThenAhead(s.toQ, call, Garbled(call));
    var s' := Step(s, QReceive);
    assert Receives(n)[1..] == Receives(n - 1);
    if n > 1 {
      assert s' == s.(toQ := s.toQ[1..]);
      ReadsUpToGarbled(s', call);
    }
  }

  /** Whenever a result is being written, something can be sent inside it, and the backend then meets
      the error as soon as it has read what is under way. */
  lemma MixedIsMisread(s: State, a: Action)
    requires Inv(s) && CTop(s, Writing) && Intrudes(a)
    ensures Enabled(s, a) && Runs(Step(s, a), Receives(|s.toQ| + 1))
    ensures Exec(Step(s, a), Receives(|s.toQ| + 1)).error
  {
    var n := |s.qs| - 1;
    var call := s.qs[n].call;
    assert TopPair(s.qs[n], s.cs[n], s.toC, s.toQ);
    LogsSnoc(s.toQ, call, Garbled(call));
    assert QTop(Step(s, a), Waiting) && Step(s, a).toQ == s.toQ + [Garbled(call)];
    ReadsUpToGarbled(Step(s, a), call);
  }

  /** Calls may start only below SQL: were the QE to call a function while it is about to answer
      something else, the client would refuse the call as outside its mask, unless the answer
      is to a subtransaction request, for which the client receives with the wider mask. */
  lemma CallWhileReplying(s: State)
    requires Inv(s) && s.qs != [] && s.qs[|s.qs| - 1].phase.Replying?
    ensures var s' := s.(toC := s.toC + [Call(s.next)]);
            && Enabled(s', CReceive)
            && (Step(s', CReceive).error <==> !s.qs[|s.qs| - 1].phase.reply.SubtransactionResult?)
  {
    var n := |s.qs| - 1;
    assert TopPair(s.qs[n], s.cs[n], s.toC, s.toQ);
  }

  /** A plan object dropped outside any call: the client asks to unprepare it and waits for the answer. */
  function DropPlan(s: State, call: nat): State {
    s.(cs := s.cs + [CFrame(call, Awaiting(Unprepare, false))], toQ := s.toQ + [Ask(Unprepare, call)])
  }

  /** A client that waits for the answer to an unprepare refuses a call. */
  lemma CallRefused(s: State)
    requires CTop(s, Awaiting(Unprepare, false)) && s.toC != [] && s.toC[0].Call?
    ensures Enabled(s, CReceive) && Step(s, CReceive).error
  {
  }

  /** The backend answers an unprepare in two steps and leaves the client where it was. */
  lemma UnprepareAnswered(s: State, call: nat)
    requires QTop(s, Waiting) && s.toQ == [Ask(Unprepare, call)] && s.toC != []
    ensures Enabled(s, QReceive) && Enabled(Step(s, QReceive), QReply)
    ensures var t := Step(Step(s, QReceive), QReply);
            t.cs == s.cs && t.cStage == s.cStage && t.toC != [] && t.toC[0] == s.toC[0]
  {
    var s' := Step(s, QReceive);
    assert QTop(s', Replying(Raw(s.qs[|s.qs| - 1].call))) && s'.cs == s.cs && s'.toC == s.toC;
    hide QTop;
  }

  /** Plan objects must go while a call is active: dropped when all calls have returned, the request is
      not read before the next call, both sides wait for each other till then, and the client takes
      that call for the answer and refuses it, whether or not the backend has answered meanwhile. */
  lemma PlanDroppedAfterReturn(s: State, call: nat)
    requires Inv(s) && QIdle(s)
    ensures var s0 := DropPlan(s, call);
            && !Enabled(s0, CReceive) && !Enabled(s0, QReceive) && Enabled(s0, QCall)
            && var s1 := Step(s0, QCall);
               && Enabled(s1, CReceive) && Step(s1, CReceive).error
               && Enabled(s1, QReceive) && Enabled(Step(s1, QReceive), QReply)
               && Enabled(Step(Step(s1, QReceive), QReply), CReceive)
               && Step(Step(Step(s1, QReceive), QReply), CReceive).error
  {
    var s1 := Step(DropPlan(s, call), QCall);
    assert s1.toC == [Call(s.next)] && s1.toQ == [Ask(Unprepare, call)] && QTop(s1, Waiting);
    assert CTop(s1, Awaiting(Unprepare, false));
    hide QDispatch, CDispatch, Inv, SetQ;
    CallRefused(s1);
    UnprepareAnswered(s1, call);
    CallRefused(Step(Step(s1, QReceive), QReply));
  }

  // ---------------------------------------------------------------- the queues

  /** What a step does to the queues: it sends one message, takes one, or leaves them alone. */
  datatype Move = ToC(sent: Msg) | ToQ(sent: Msg) | FromC | FromQ | Stay

  function MoveOf(s: State, a: Action): Move
    requires Enabled(s, a)
  {
    match a
    case QPing => ToC(Ping)
    case QCall => ToC(Call(s.next))
    case QReply => ToC(s.qs[|s.qs| - 1].phase.reply)
    case QFinish => ToC(Result(s.qs[|s.qs| - 1].call))
    case CEcho => ToQ(Ping)
    case CLog => ToQ(Log(s.cs[|s.cs| - 1].call))
    case CAsk(r) => ToQ(Ask(r, s.cs[|s.cs| - 1].call))
    case CStart => Stay
    case CReturn => ToQ(Result(s.cs[|s.cs| - 1].call))
    case CLogInside => ToQ(Garbled(s.cs[|s.cs| - 1].call))
    case CAskInside(_) => ToQ(Garbled(s.cs[|s.cs| - 1].call))
    case QPong => FromQ
    case QReceive => FromQ
    case CPing => FromC
    case CReceive => FromC
  }

  lemma QueuesMove(s: State, a: Action)
    requires Enabled(s, a)
    ensures match MoveOf(s, a)
            case ToC(m) => Step(s, a).toC == s.toC + [m] && Step(s, a).toQ == s.toQ
            case ToQ(m) => Step(s, a).toQ == s.toQ + [m] && Step(s, a).toC == s.toC
            case FromC => s.toC != [] && Step(s, a).toC == s.toC[1..] && Step(s, a).toQ == s.toQ
            case FromQ => s.toQ != [] && Step(s, a).toQ == s.toQ[1..] && Step(s, a).toC == s.toC
            case Stay => Step(s, a).toQ == s.toQ && Step(s, a).toC == s.toC
  {
  }

  /** The tags the receiver of a step accepts; the backend accepts all and looks at them itself. */
  function Accepts(s: State, a: Action): set<char> {
    if a.CPing? || a.CReceive? then Mask(s) else {'P', 'C', 'R', 'L', 'Q', 'N', 'S', 'W', 'O', 'Z'}
  }

  lemma MaskAdmits(s: State, a: Action)
    requires Inv(s) && Enabled(s, a)
    ensures MoveOf(s, a).FromC? ==> s.toC != [] && Tag(s.toC[0]) in Accepts(s, a)
    ensures MoveOf(s, a).FromQ? ==> s.toQ != [] && Tag(s.toQ[0]) in Accepts(s, a)
  {
    InvMeansOrderly(s);
  }
}
