/** What the Python client sends on behalf of a call, and how it reports errors (src/pyclient/pyerror.c,
    src/pyclient/pycall.c): one pending error, Python's error indicator, a flag that the call is over and
    a flag that a result is being written. */
module ErrorReport {
  import opened Basics

  /** What an error message says: the text given, None for the fixed text about an uncaught exception,
      and the Python error found in the indicator. */
  datatype Report<E> = Report(text: Option<E>, cause: Option<E>)

  /** What goes out on the wire: an exception, a log entry of level ERROR or above, the two ends of a
      result, a log entry of a lower level, and a request. A result is whole when its tail follows its
      head. */
  datatype Piece<E> =
    | Exception(report: Report<E>) | ErrorLog(err: E) | Head | Tail(trailer: Option<Report<E>>)
    | Noted | Asked

  /** What may happen while Python code or a conversion runs: raise_execution_error; plpy.error or
      plpy.fatal; a Python error that stays in the indicator and that nobody looks at, such as an
      exception inside a generator; the indicator being cleared; a log entry below ERROR; and a request.
      Only statements, plans and their removal are guarded by the flag that the call is over; quoting
      and subtransactions are not. */
  datatype Event<E> =
    | Raise(text: Option<E>) | Log(err: E) | Swallow(err: E) | Clear
    | Notice | Ask(guarded: bool)

  /** A call from the start of user code on: the events of the function body, the exception if it did
      not return, the events while its value is converted, the error if the conversion failed and
      whether that was before the conversion of rows, and the events while the result is written. */
  datatype Call<E> = Call(body: seq<Event<E>>, bodyError: Option<E>, convert: seq<Event<E>>,
                          convertError: Option<E>, early: bool, stream: seq<Event<E>>)

  // ----------------------------------------------------------- specification

  /** The indicator after one event: a raised error takes it into its report. */
  function Touch<E>(ind: Option<E>, e: Event<E>): Option<E> {
    match e
    case Raise(_) => None
    case Swallow(err) => Some(err)
    case Clear => None
    case Log(_) => ind
    case Notice => ind
    case Ask(_) => ind
  }

  function Touched<E>(ind: Option<E>, events: seq<Event<E>>): Option<E>
    decreases |events|
  {
    if events == [] then ind else Touched(Touch(ind, events[0]), events[1..])
  }

  predicate Speaks<E>(e: Event<E>) { e.Raise? || e.Log? }

  predicate Silent<E>(events: seq<Event<E>>) {
    forall k | 0 <= k < |events| :: !Speaks(events[k])
  }

  /** Nothing is sent of its own accord: no log of any level and no request. */
  predicate Quiet<E>(events: seq<Event<E>>) {
    forall k | 0 <= k < |events| :: !events[k].Log? && !events[k].Notice? && !events[k].Ask?
  }

  /** The request goes out. */
  predicate Sent<E>(over: bool, e: Event<E>) {
    e.Ask? && (!e.guarded || !over)
  }

  /** The request goes out when the other side does not serve requests: after a report, or in the middle
      of a result. The call then waits for an answer that is not coming. */
  predicate Unserved<E>(over: bool, sending: bool, e: Event<E>) {
    Sent(over, e) && (over || sending)
  }

  /** The call is over after the event. While a result is written only a log ends it. */
  predicate Over<E>(over: bool, sending: bool, e: Event<E>) {
    over || e.Log? || (e.Raise? && !sending)
  }

  predicate Hangs<E>(over: bool, sending: bool, events: seq<Event<E>>)
    decreases |events|
  {
    events != [] &&
    (Unserved(over, sending, events[0]) || Hangs(Over(over, sending, events[0]), sending, events[1..]))
  }

  /** The events that happen: none after the one that hangs. */
  function Heard<E>(over: bool, sending: bool, events: seq<Event<E>>): seq<Event<E>>
    decreases |events|
  {
    if events == [] then []
    else if Unserved(over, sending, events[0]) then [events[0]]
    else [events[0]] + Heard(Over(over, sending, events[0]), sending, events[1..])
  }

  /** What one event sends while no result is being written. */
  function Says1<E>(ind: Option<E>, over: bool, e: Event<E>): seq<Piece<E>> {
    if Sent(over, e) then [Asked]
    else if over then []
    else match e
      case Raise(text) => [Exception(Report(text, ind))]
      case Log(err) => [ErrorLog(err)]
      case Notice => [Noted]
      case _ => []
  }

  function Said<E>(ind: Option<E>, over: bool, events: seq<Event<E>>): seq<Piece<E>>
    decreases |events|
  {
    if events == [] then []
    else Says1(ind, over, events[0]) + Said(Touch(ind, events[0]), Over(over, false, events[0]), events[1..])
  }

  /** What one event sends while a result is being written: everything but errors raised. */
  function Inside1<E>(over: bool, e: Event<E>): seq<Piece<E>> {
    if e.Raise? then [] else Says1(None, over, e)
  }

  function Inside<E>(over: bool, events: seq<Event<E>>): seq<Piece<E>>
    decreases |events|
  {
    if events == [] then [] else Inside1(over, events[0]) + Inside(Over(over, true, events[0]), events[1..])
  }

  /** The first error raised before any log becomes the trailer. */
  function Trailer<E>(ind: Option<E>, stream: seq<Event<E>>): Option<Report<E>>
    decreases |stream|
  {
    if stream == [] || stream[0].Log? then None
    else if stream[0].Raise? then Some(Report(stream[0].text, ind))
    else Trailer(Touch(ind, stream[0]), stream[1..])
  }

  function Written<E>(ind: Option<E>, over: bool, stream: seq<Event<E>>): seq<Piece<E>> {
    [Head] + (Inside(over, Heard(over, true, stream))
              + if Hangs(over, true, stream) then [] else [Tail(if over then None else Trailer(ind, stream))])
  }

  /** What events send before a result is written. */
  function Talk<E>(ind: Option<E>, events: seq<Event<E>>): seq<Piece<E>> {
    Said(ind, false, Heard(false, false, events))
  }

  /** The indicator when the function has returned or failed. */
  function AtReturn<E>(stale: Option<E>, c: Call<E>): Option<E> {
    if c.bodyError.Some? then c.bodyError else Touched(stale, c.body)
  }

  function ResultPieces<E>(c: Call<E>): seq<Piece<E>> {
    if c.convertError.Some? then Talk(None, c.convert + [Raise(c.convertError)])
    else
      Talk(None, c.convert)
      + if Hangs(false, false, c.convert) then []
        else Written(Touched(None, c.convert), !Silent(c.convert), c.stream)
  }

  function CallPieces<E>(stale: Option<E>, c: Call<E>): seq<Piece<E>> {
    Talk(stale, c.body)
    + if Hangs(false, false, c.body) then []
      else if !Silent(c.body) then []
      else if AtReturn(stale, c).Some? then [Exception(Report(None, AtReturn(stale, c)))]
      else ResultPieces(c)
  }

  /** The body returned in peace, so its value is converted. */
  predicate Returns<E>(stale: Option<E>, c: Call<E>) {
    Silent(c.body) && AtReturn(stale, c).None?
  }

  /** The call gets as far as writing its result. */
  predicate Sends<E>(stale: Option<E>, c: Call<E>) {
    Returns(stale, c) && c.convertError.None? && !Hangs(false, false, c.convert)
  }

  predicate CallHangs<E>(stale: Option<E>, c: Call<E>) {
    || Hangs(false, false, c.body)
    || (Returns(stale, c) && Hangs(false, false, c.convert))
    || (Sends(stale, c) && Hangs(!Silent(c.convert), true, c.stream))
  }

  /** The indicator a call leaves to the next one. */
  function Leaves<E>(stale: Option<E>, c: Call<E>): Option<E> {
    if Sends(stale, c) then Touched(Touched(None, c.convert), c.stream) else None
  }

  // -------------------------------------------------------------- the client

  class Client<E> {
    var pending: Option<Report<E>>
    var indicator: Option<E>
    var terminated: bool
    var sending: bool
    var connected: bool
    var out: seq<Piece<E>>

    constructor ()
      ensures pending.None? && indicator.None? && !terminated && !sending && !connected && out == []
    {
      pending, indicator, terminated, sending, connected, out := None, None, false, false, false, [];
    }

    /** Between calls, and whenever no result is being written. */
    predicate Idle()
      reads this
    {
      pending.None? && !sending && connected
    }

    /** An exception can be sent now. */
    predicate CanSend()
      reads this
    {
      !terminated && connected && !sending
    }

    /** plc_raise_delayed_error */
    method RaiseDelayed()
      modifies this`pending, this`terminated, this`out
      ensures old(pending.Some? && CanSend()) ==>
                pending.None? && terminated && out == old(out) + [Exception(old(pending).value)]
      ensures !old(pending.Some? && CanSend()) ==>
                pending == old(pending) && terminated == old(terminated) && out == old(out)
    {
      if pending.Some? {
        if !terminated && connected && !sending {
          out := out + [Exception(pending.value)];
          pending := None;
          terminated := true;
        }
      }
    }

    /** raise_execution_error: the indicator is emptied even when the report is dropped. */
    method RaiseError(text: Option<E>)
      modifies this`pending, this`indicator, this`terminated, this`out
      ensures indicator.None?
      ensures old(CanSend()) ==> pending.None? && terminated
      ensures old(CanSend()) ==>
                out == old(out)
                       + [Exception(if old(pending).Some? then old(pending).value else Report(text, old(indicator)))]
      ensures !old(CanSend()) ==> out == old(out) && terminated == old(terminated)
      ensures !old(CanSend()) ==>
                pending == if old(pending.None? && !terminated) then Some(Report(text, old(indicator)))
                           else old(pending)
    {
      RaiseDelayed();
      var stack := indicator;
      indicator := None;
      if pending.None? && !terminated {
        pending := Some(Report(text, stack));
        RaiseDelayed();
      }
    }

    /** plc_error_callback: the result being written takes the pending error along. */
    method TakePending() returns (msg: Option<Report<E>>)
      modifies this`pending
      ensures msg == old(pending) && pending.None?
    {
      msg := pending;
      pending := None;
    }

    /** PLy_output: whether a result is being written is not looked at. */
    method Output(err: Option<E>)
      modifies this`terminated, this`out
      ensures terminated == (old(terminated) || err.Some?)
      ensures out == old(out) + if old(terminated) then [] else if err.Some? then [ErrorLog(err.value)] else [Noted]
    {
      if !terminated {
        if err.Some? {
          terminated := true;
        }
        out := out + if err.Some? then [ErrorLog(err.value)] else [Noted];
      }
    }

    /** A request: guarded ones look at the flag that the call is over. */
    method Request(guarded: bool) returns (unserved: bool)
      modifies this`out
      ensures out == old(out) + if Sent(terminated, Event<E>.Ask(guarded)) then [Asked] else []
      ensures unserved == Unserved(terminated, sending, Event<E>.Ask(guarded))
    {
      unserved := false;
      if !(guarded && terminated) {
        out := out + [Asked];
        unserved := terminated || sending;
      }
    }

    method Happen(e: Event<E>) returns (unserved: bool)
      modifies this`pending, this`indicator, this`terminated, this`out
      ensures indicator == Touch(old(indicator), e)
      ensures unserved == Unserved(old(terminated), sending, e)
      ensures old(Idle()) ==> Idle() && terminated == Over(old(terminated), false, e)
      ensures old(Idle()) ==> out == old(out) + Says1(old(indicator), old(terminated), e)
      ensures sending ==> terminated == Over(old(terminated), true, e)
      ensures sending ==> out == old(out) + Inside1(old(terminated), e)
      ensures sending ==>
                pending == if old(pending).Some? || old(terminated) then old(pending) else Trailer(old(indicator), [e])
    {
      unserved := false;
      match e
      case Raise(text) => RaiseError(text);
      case Log(err) => Output(Some(err));
      case Notice => Output(None);
      case Ask(guarded) => unserved := Request(guarded);
      case Swallow(err) => indicator := Some(err);
      case Clear => indicator := None;
    }

    /** However many events there are while nothing is being written, the first that speaks is sent at
        once and what comes after it is dropped, but for requests that are not guarded. */
    method Meet(events: seq<Event<E>>) returns (hangs: bool)
      requires Idle()
      modifies this`pending, this`indicator, this`terminated, this`out
      ensures hangs == Hangs(old(terminated), false, events)
      ensures out == old(out) + Said(old(indicator), old(terminated), Heard(old(terminated), false, events))
      ensures Idle()
      ensures !hangs ==> indicator == Touched(old(indicator), events)
      ensures !hangs ==> terminated == (old(terminated) || !Silent(events))
    {
      ghost var (ind, over, before) := (indicator, terminated, out);
      assert events[0..] == events;
      for i := 0 to |events|
        invariant Idle() && Touched(indicator, events[i..]) == Touched(ind, events)
        invariant Hangs(terminated, false, events[i..]) == Hangs(over, false, events)
        invariant (terminated || !Silent(events[i..])) == (over || !Silent(events))
        invariant out + Said(indicator, terminated, Heard(terminated, false, events[i..]))
                  == before + Said(ind, over, Heard(over, false, events))
      {
        ghost var (rest, ind1, over1) := (events[i..], indicator, terminated);
        assert rest[1..] == events[i + 1..];
        SilentRest(rest);
        SaidStep(out, ind1, over1, rest);
        hangs := Happen(events[i]);
        if hangs {
          return;
        }
      }
      hangs := false;
    }

    /** Events while a result is written: the first error raised before a log stays pending, everything
        else that is sent goes out at once. */
    method MeetSending(stream: seq<Event<E>>) returns (hangs: bool)
      requires pending.None? && sending && connected
      modifies this`pending, this`indicator, this`terminated, this`out
      ensures hangs == Hangs(old(terminated), true, stream)
      ensures out == old(out) + Inside(old(terminated), Heard(old(terminated), true, stream))
      ensures !hangs ==> indicator == Touched(old(indicator), stream)
      ensures !hangs ==> pending == if old(terminated) then None else Trailer(old(indicator), stream)
      ensures !hangs ==> terminated == (old(terminated) || !NoLog(stream))
    {
      ghost var (ind, over, before) := (indicator, terminated, out);
      assert stream[0..] == stream;
      for i := 0 to |stream|
        invariant Touched(indicator, stream[i..]) == Touched(ind, stream)
        invariant Hangs(terminated, true, stream[i..]) == Hangs(over, true, stream)
        invariant (terminated || !NoLog(stream[i..])) == (over || !NoLog(stream))
        invariant out + Inside(terminated, Heard(terminated, true, stream[i..]))
                  == before + Inside(over, Heard(over, true, stream))
        invariant (if pending.Some? || terminated then pending else Trailer(indicator, stream[i..]))
                  == if over then None else Trailer(ind, stream)
      {
        ghost var rest := stream[i..];
        assert rest[1..] == stream[i + 1..];
        NoLogRest(rest);
        InsideStep(out, terminated, rest);
        hangs := Happen(stream[i]);
        if hangs {
          return;
        }
      }
      hangs := false;
    }

    /** send_result as process_call_results calls it. */
    method SendResult(stream: seq<Event<E>>) returns (hangs: bool)
      requires Idle()
      modifies this`pending, this`indicator, this`terminated, this`sending, this`out
      ensures hangs == Hangs(old(terminated), true, stream)
      ensures out == old(out) + Written(old(indicator), old(terminated), stream)
      ensures !hangs ==> Idle() && indicator == Touched(old(indicator), stream)
      ensures !hangs ==> terminated == (old(terminated) || !NoLog(stream))
    {
      hide Inside, Heard, Trailer, Hangs, Touched, NoLog;
      ghost var inside := Inside(terminated, Heard(terminated, true, stream));
      sending := true;
      out := out + [Head];
      hangs := MeetSending(stream);
      if hangs {
        assert inside + [] == inside;
        Assoc(old(out), [Head], inside);
        return;
      }
      var trailer := TakePending();
      Assoc(old(out), [Head], inside);
      Assoc(old(out), [Head] + inside, [Tail(trailer)]);
      Assoc([Head], inside, [Tail(trailer)]);
      out := out + [Tail(trailer)];
      sending := false;
    }

    /** process_call_results */
    method ProcessResults(c: Call<E>) returns (hangs: bool)
      requires Idle() && !terminated && indicator.None?
      modifies this`pending, this`indicator, this`terminated, this`sending, this`out
      ensures hangs == (|| Hangs(false, false, c.convert)
                        || (c.convertError.None? && Hangs(!Silent(c.convert), true, c.stream)))
      ensures out == old(out) + ResultPieces(c)
      ensures !hangs ==> Idle()
      ensures !hangs ==>
                indicator == if c.convertError.Some? then None else Touched(Touched(None, c.convert), c.stream)
      ensures !hangs ==> terminated == (c.convertError.Some? || !Silent(c.convert) || !NoLog(c.stream))
    {
      hide Hangs, Said, Heard, Written, Touched, NoLog;
      if c.convertError.Some? {
        ConvertFails(c.convert, c.convertError);
        assert Speaks((c.convert + [Raise(c.convertError)])[|c.convert|]);
        hangs := Meet(c.convert + [Raise(c.convertError)]);
        if hangs || c.early {
          return;
        }
      } else {
        hangs := Meet(c.convert);
        if hangs {
          return;
        }
        Assoc(old(out), Talk(None, c.convert), Written(indicator, terminated, c.stream));
        hangs := SendResult(c.stream);
        if hangs {
          return;
        }
      }
      RaiseDelayed();
    }

    /** handle_call from the start of user code: exactly these pieces are sent, in this order. Unless the
        call hangs in a request that is not served, nothing stays pending; the indicator may be left
        set. */
    method Execute(c: Call<E>) returns (hangs: bool)
      requires Idle()
      modifies this`pending, this`indicator, this`terminated, this`sending, this`out
      ensures hangs == CallHangs(old(indicator), c)
      ensures out == old(out) + CallPieces(old(indicator), c)
      ensures !hangs ==> Idle() && indicator == Leaves(old(indicator), c)
      ensures !hangs ==> terminated == !(Sends(old(indicator), c) && Silent(c.convert) && NoLog(c.stream))
    {
      hide Said, Heard, ResultPieces, Hangs;
      SilentServed(c.body);
      terminated := false;
      hangs := Meet(c.body);
      if hangs {
        return;
      }
      if c.bodyError.Some? {
        indicator := c.bodyError;
      }
      if indicator.Some? {
        RaiseError(None);
      } else if !terminated {
        Assoc(old(out), Talk(old(indicator), c.body), ResultPieces(c));
        hangs := ProcessResults(c);
      }
    }

    /** A client that cannot start Python: the error raised then waits for a connection that only a
        call would set, so it is never sent. */
    method FailedStart(e: E)
      requires !connected && pending.None? && !terminated
      modifies this
      ensures pending == Some(Report(Some(e), old(indicator))) && out == old(out)
    {
      RaiseError(Some(e));
      RaiseDelayed();
    }

    /** A with-block left by an exception e after a report: the call waits for the end of its
        subtransaction, the next call is served inside that wait, and when the end is answered at last
        the exception is reported although the call has been answered before. */
    method ServedInWait(next: Call<E>, e: E) returns (hangs: bool)
      requires Idle() && terminated
      requires Sends(indicator, next) && Silent(next.convert) && NoLog(next.stream)
      modifies this`pending, this`indicator, this`terminated, this`sending, this`out
      ensures hangs == CallHangs(old(indicator), next)
      ensures !hangs ==>
                out == old(out) + CallPieces(old(indicator), next) + [Exception(Report(None, Some(e)))]
    {
      hide CallPieces, CallHangs, Leaves;
      hangs := Execute(next);
      if !hangs {
        indicator := Some(e);
        RaiseError(None);
      }
    }
  }

  predicate NoLog<E>(events: seq<Event<E>>) {
    forall k | 0 <= k < |events| :: !events[k].Log?
  }

  lemma NoLogRest<E>(events: seq<Event<E>>)
    requires events != []
    ensures NoLog(events) <==> !events[0].Log? && NoLog(events[1..])
  {
    if !events[0].Log? && NoLog(events[1..]) {
      forall k | 0 <= k < |events| ensures !events[k].Log? {
        assert k > 0 ==> events[k] == events[1..][k - 1];
      }
    }
  }

  /** A call that has not spoken is served. */
  lemma {:induction false} SilentServed<E>(events: seq<Event<E>>)
    ensures Silent(events) ==> !Hangs(false, false, events)
  {
    if events != [] {
      SilentRest(events);
      SilentServed(events[1..]);
    }
  }

  lemma {:induction false} ConvertFails<E>(events: seq<Event<E>>, text: Option<E>)
    ensures Hangs(false, false, events + [Raise(text)]) == Hangs(false, false, events)
    ensures forall ind: Option<E> :: Touched(ind, events + [Raise(text)]).None?
  {
    HangsByRaise(false, events, text);
    forall ind: Option<E> ensures Touched(ind, events + [Raise(text)]).None? {
      TouchedByRaise(ind, events, text);
    }
  }

  lemma {:induction false} HangsByRaise<E>(over: bool, events: seq<Event<E>>, text: Option<E>)
    ensures Hangs(over, false, events + [Raise(text)]) == Hangs(over, false, events)
    decreases |events|
  {
    if events == [] {
      assert (events + [Raise(text)])[1..] == [];
    } else {
      HangsByRaise(Over(over, false, events[0]), events[1..], text);
      assert (events + [Raise(text)])[1..] == events[1..] + [Raise(text)];
    }
  }

  lemma {:induction false} TouchedByRaise<E>(ind: Option<E>, events: seq<Event<E>>, text: Option<E>)
    ensures Touched(ind, events + [Raise(text)]).None?
    decreases |events|
  {
    if events == [] {
      assert (events + [Raise(text)])[1..] == [];
    } else {
      TouchedByRaise(Touch(ind, events[0]), events[1..], text);
      assert (events + [Raise(text)])[1..] == events[1..] + [Raise(text)];
    }
  }

  /** One step along the events while nothing is being written. */
  lemma SaidStep<E>(out: seq<Piece<E>>, ind: Option<E>, over: bool, events: seq<Event<E>>)
    requires events != []
    ensures out + Said(ind, over, Heard(over, false, events))
            == (out + Says1(ind, over, events[0]))
               + if Unserved(over, false, events[0]) then []
                 else var over1 := Over(over, false, events[0]);
                      Said(Touch(ind, events[0]), over1, Heard(over1, false, events[1..]))
  {
    var (e, rest) := (events[0], events[1..]);
    var heard := Heard(over, false, events);
    assert heard[0] == e;
    if Unserved(over, false, e) {
      assert heard[1..] == [];
    } else {
      assert heard[1..] == Heard(Over(over, false, e), false, rest);
      Assoc(out, Says1(ind, over, e), Said(Touch(ind, e), Over(over, false, e), heard[1..]));
    }
  }

  /** One step along the events while a result is written. */
  lemma InsideStep<E>(out: seq<Piece<E>>, over: bool, events: seq<Event<E>>)
    requires events != []
    ensures out + Inside(over, Heard(over, true, events))
            == (out + Inside1(over, events[0]))
               + if Unserved(over, true, events[0]) then []
                 else var over1 := Over(over, true, events[0]); Inside(over1, Heard(over1, true, events[1..]))
  {
    var (e, rest) := (events[0], events[1..]);
    var heard := Heard(over, true, events);
    assert heard[0] == e;
    if Unserved(over, true, e) {
      assert heard[1..] == [];
    } else {
      assert heard[1..] == Heard(Over(over, true, e), true, rest);
      Assoc(out, Inside1(over, e), Inside(Over(over, true, e), heard[1..]));
    }
  }

  lemma SilentRest<E>(events: seq<Event<E>>)
    requires events != []
    ensures Silent(events) <==> !Speaks(events[0]) && Silent(events[1..])
  {
    if !Speaks(events[0]) && Silent(events[1..]) {
      forall k | 0 <= k < |events| ensures !Speaks(events[k]) {
        assert k > 0 ==> events[k] == events[1..][k - 1];
      }
    }
  }

  // ------------------------------------------------------- how a call answers

  /** What belongs to the conversation before the answer. */
  predicate IsTalk<E>(p: Piece<E>) { p.Noted? || p.Asked? }

  predicate IsAnswer<E>(ps: seq<Piece<E>>) {
    || (|ps| == 1 && (ps[0].Exception? || ps[0].ErrorLog?))
    || (|ps| == 2 && ps[0].Head? && ps[1].Tail?)
  }

  /** Notes and requests, then an exception, an error log or a whole result, and nothing more. */
  predicate OneAnswer<E>(ps: seq<Piece<E>>) {
    ps != [] && if IsTalk(ps[0]) then OneAnswer(ps[1..]) else IsAnswer(ps)
  }

  /** The call hangs before its result exactly if an unguarded request follows a report. */
  lemma {:induction false} HangsIff<E>(over: bool, events: seq<Event<E>>)
    ensures Hangs(over, false, events)
            <==> (over && Ask(false) in events)
                 || exists i, j | 0 <= i < j < |events| :: Speaks(events[i]) && events[j] == Ask(false)
    decreases |events|
  {
    if events != [] {
      var (e, rest) := (events[0], events[1..]);
      var over1 := Over(over, false, e);
      HangsIff(over1, rest);
      assert events == [e] + rest;
      if i, j :| 0 <= i < j < |rest| && Speaks(rest[i]) && rest[j] == Ask(false) {
        assert Speaks(events[i + 1]) && events[j + 1] == Ask(false);
      }
      if i, j :| 0 <= i < j < |events| && Speaks(events[i]) && events[j] == Ask(false) {
        assert rest[j - 1] == Ask(false);
        if i > 0 {
          assert Speaks(rest[i - 1]);
        }
      }
      if Speaks(e) && Ask(false) in rest {
        var j :| 0 <= j < |rest| && rest[j] == Ask(false);
        assert Speaks(events[0]) && events[j + 1] == Ask(false);
      }
    }
  }

  /** After a report nothing is sent but an unguarded request. */
  lemma {:induction false} SaidAfterReport<E>(ind: Option<E>, events: seq<Event<E>>)
    ensures Said(ind, true, Heard(true, false, events)) == if Hangs(true, false, events) then [Asked] else []
    decreases |events|
  {
    if events != [] {
      SaidStep([], ind, true, events);
      SaidAfterReport(Touch(ind, events[0]), events[1..]);
      NoPieces(ind, true, events);
    }
  }

  lemma NoPieces<E>(ind: Option<E>, over: bool, events: seq<Event<E>>)
    requires events != []
    ensures [] + Said(ind, over, Heard(over, false, events)) == Said(ind, over, Heard(over, false, events))
    ensures [] + Says1(ind, over, events[0]) == Says1(ind, over, events[0])
  {
  }

  /** What is sent before a result, and then more, is one answer exactly if there was no report and the
      rest is one, or if there was one, no unguarded request followed it and there is no rest. */
  lemma {:induction false} TalkAnswers<E>(ind: Option<E>, events: seq<Event<E>>, tail: seq<Piece<E>>)
    ensures OneAnswer(Talk(ind, events) + tail)
            <==> if Silent(events) then OneAnswer(tail) else !Hangs(false, false, events) && tail == []
    decreases |events|
  {
    if events == [] {
      assert Talk(ind, events) + tail == tail;
    } else {
      var (e, rest) := (events[0], events[1..]);
      var ind1 := Touch(ind, e);
      SilentRest(events);
      SaidStep([], ind, false, events);
      NoPieces(ind, false, events);
      if Speaks(e) {
        SaidAfterReport(ind1, rest);
        assert !IsTalk((Talk(ind, events) + tail)[0]);
      } else {
        TalkAnswers(ind1, rest, tail);
        var p := Says1(ind, false, e);
        Assoc(p, Talk(ind1, rest), tail);
        assert p == [] || (|p| == 1 && IsTalk(p[0]));
        if p == [] {
          assert p + (Talk(ind1, rest) + tail) == Talk(ind1, rest) + tail;
        } else {
          assert (p + (Talk(ind1, rest) + tail))[1..] == Talk(ind1, rest) + tail;
        }
      }
    }
  }

  lemma QuietRest<E>(events: seq<Event<E>>)
    requires events != []
    ensures Quiet(events) <==> !events[0].Log? && !events[0].Notice? && !events[0].Ask? && Quiet(events[1..])
  {
    if !events[0].Log? && !events[0].Notice? && !events[0].Ask? && Quiet(events[1..]) {
      forall k | 0 <= k < |events| ensures !events[k].Log? && !events[k].Notice? && !events[k].Ask? {
        assert k > 0 ==> events[k] == events[1..][k - 1];
      }
    }
  }

  /** Nothing gets into a result exactly if nothing is sent while it is written. */
  lemma {:induction false} InsideQuiet<E>(stream: seq<Event<E>>)
    ensures Inside(false, Heard(false, true, stream)) == [] && !Hangs(false, true, stream) <==> Quiet(stream)
  {
    if stream != [] {
      QuietRest(stream);
      InsideStep([], false, stream);
      InsideQuiet(stream[1..]);
    }
  }

  /** A result goes out whole, with the first error raised on the way as its trailer, exactly when
      nothing else is sent while it is written: no log of any level and no request. */
  lemma WholeResult<E>(ind: Option<E>, stream: seq<Event<E>>)
    ensures Written(ind, false, stream) == [Head, Tail(Trailer(ind, stream))] <==> Quiet(stream)
    ensures OneAnswer(Written(ind, false, stream)) <==> Quiet(stream)
  {
    InsideQuiet(stream);
    var inside := Inside(false, Heard(false, true, stream));
    if inside != [] {
      assert Written(ind, false, stream)[1] == inside[0];
      InsideIsNoTail(false, Heard(false, true, stream));
    }
  }

  lemma {:induction false} InsideIsNoTail<E>(over: bool, events: seq<Event<E>>)
    ensures forall k | 0 <= k < |Inside(over, events)| :: !Inside(over, events)[k].Tail?
    decreases |events|
  {
    if events != [] {
      InsideIsNoTail(Over(over, true, events[0]), events[1..]);
    }
  }

  /** What a caller can see beforehand: no unguarded request follows a report, no report comes before a
      result, and nothing is sent while a result is written. */
  predicate Orderly<E>(stale: Option<E>, c: Call<E>) {
    && !Hangs(false, false, c.body)
    && (Returns(stale, c) ==> !Hangs(false, false, c.convert))
    && (Sends(stale, c) ==> Silent(c.convert) && Quiet(c.stream))
  }

  /** A call is answered once if and only if it is orderly. */
  lemma AnswersOnce<E>(stale: Option<E>, c: Call<E>)
    ensures OneAnswer(CallPieces(stale, c)) <==> Orderly(stale, c)
  {
    hide Talk, Hangs, Written, Quiet;
    SilentServed(c.body);
    var rest := if Hangs(false, false, c.body) || !Silent(c.body) then []
                else if AtReturn(stale, c).Some? then [Exception(Report(None, AtReturn(stale, c)))]
                else ResultPieces(c);
    TalkAnswers(stale, c.body, rest);
    if Returns(stale, c) {
      ResultAnswers(c);
    }
  }

  lemma ResultAnswers<E>(c: Call<E>)
    ensures OneAnswer(ResultPieces(c))
            <==> !Hangs(false, false, c.convert) && (c.convertError.None? ==> Silent(c.convert) && Quiet(c.stream))
  {
    hide Talk, Hangs, Written, Quiet, OneAnswer;
    if c.convertError.Some? {
      var all := c.convert + [Raise(c.convertError)];
      ConvertFails(c.convert, c.convertError);
      TalkAnswers(None, all, []);
      assert Speaks(all[|c.convert|]);
      assert Talk(None, all) + [] == Talk(None, all);
    } else {
      SilentServed(c.convert);
      var rest := if Hangs(false, false, c.convert) then []
                  else Written(Touched(None, c.convert), !Silent(c.convert), c.stream);
      TalkAnswers(None, c.convert, rest);
      WholeResult(Touched(None, c.convert), c.stream);
      WrittenStarts(Touched(None, c.convert), !Silent(c.convert), c.stream);
    }
  }

  lemma WrittenStarts<E>(ind: Option<E>, over: bool, stream: seq<Event<E>>)
    ensures Written(ind, over, stream) != []
  {
  }

  /** An element whose conversion to text calls plpy.notice. */
  lemma NoticeInsideResult<E>()
    ensures CallPieces<E>(None, Call([], None, [], None, false, [Notice])) == [Head, Noted, Tail(None)]
  {
    var stream: seq<Event<E>> := [Notice];
    assert stream[1..] == [];
    assert Heard(false, true, stream) == [Notice];
  }

  /** An element whose conversion to text calls plpy.execute: the result is never finished. */
  lemma RequestInsideResult<E>()
    ensures CallPieces<E>(None, Call([], None, [], None, false, [Ask(true)])) == [Head, Asked]
    ensures CallHangs<E>(None, Call([], None, [], None, false, [Ask(true)]))
  {
    var stream: seq<Event<E>> := [Ask(true)];
    assert stream[1..] == [];
    assert Heard(false, true, stream) == [Ask(true)];
  }

  /** An element whose conversion to text calls plpy.error, after one that could not be converted. */
  lemma LogInsideResult<E>(e: E, log: E)
    ensures CallPieces(None, Call([], None, [], None, false, [Raise(Some(e)), Log(log)]))
            == [Head, ErrorLog(log), Tail(Some(Report(Some(e), None)))]
  {
    var stream := [Raise(Some(e)), Log(log)];
    assert stream[1..] == [Log(log)] && [Log(log)][1..] == [];
    assert Heard(true, true, [Log(log)][1..]) == [] && Heard(false, true, stream[1..]) == [Log(log)];
    assert Heard(false, true, stream) == stream && !Hangs(false, true, stream[1..]);
    assert Inside(false, stream) == Inside(false, stream[1..]) == [ErrorLog(log)];
  }

  /** A with-block in which plpy.prepare is given a type that is no string: the exception goes out, then
      the end of the subtransaction is requested from a backend that has left the call. */
  lemma WithBlockHangs<E>(e: E, sys: E)
    ensures var c := Call([Ask(false), Raise(Some(e)), Swallow(sys), Ask(false)], Some(sys), [], None, false, []);
            CallPieces(None, c) == [Asked, Exception(Report(Some(e), None)), Asked] && CallHangs(None, c)
  {
    var events := [Ask(false), Raise(Some(e)), Swallow(sys), Ask(false)];
    assert events[1..] == [Raise(Some(e)), Swallow(sys), Ask(false)];
    assert events[1..][1..] == [Swallow(sys), Ask(false)];
    assert events[1..][1..][1..] == [Ask(false)];
    assert Hangs(true, false, [Swallow(sys), Ask(false)]);
    SaidAfterReport(None, [Swallow(sys), Ask(false)]);
    SaidStep([], None, false, events);
    SaidStep([], None, false, events[1..]);
  }

  /** A set-returning function whose generator calls plpy.prepare with a type that is no string: an
      exception and a result are sent, and the SystemError that Python makes of it is left over. */
  lemma GeneratorErrorSendsTwo<E>(e: E, sys: E)
    ensures var c := Call([], None, [Raise(Some(e)), Swallow(sys)], None, false, []);
            && CallPieces(None, c) == [Exception(Report(Some(e), None)), Head, Tail(None)]
            && Leaves(None, c) == Some(sys)
  {
    var events := [Raise(Some(e)), Swallow(sys)];
    assert events[1..] == [Swallow(sys)] && [Swallow(sys)][1..] == [];
    assert Touched(None, events) == Touched(None, events[1..]) == Some(sys);
    SaidAfterReport(None, [Swallow(sys)]);
    SaidStep([], None, false, events);
    assert Speaks(events[0]);
  }
}
