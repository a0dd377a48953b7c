/** Which error of a call is reported, when several are raised and some stay in Python's indicator. */
module FirstErrors {
  import opened Basics
  import opened ErrorReport

  /** Of events met while nothing is being written the first that speaks is reported. */
  function FirstReport<E>(ind: Option<E>, events: seq<Event<E>>): (r: seq<Piece<E>>)
    ensures r == [] <==> Silent(events)
    ensures r != [] ==> |r| == 1 && (r[0].Exception? || r[0].ErrorLog?)
    decreases |events|
  {
    if events == [] then []
    else
      SilentRest(events);
      if events[0].Raise? then [Exception(Report(events[0].text, ind))]
      else if events[0].Log? then [ErrorLog(events[0].err)]
      else FirstReport(Touch(ind, events[0]), events[1..])
  }

  function FirstLog<E>(stream: seq<Event<E>>): (r: seq<Piece<E>>)
    ensures r != [] ==> |r| == 1 && r[0].ErrorLog?
  {
    if stream == [] then []
    else if stream[0].Log? then [ErrorLog(stream[0].err)]
    else FirstLog(stream[1..])
  }

  /** The events of a call in order, with the raise that tests the indicator after the body. */
  function Flow<E>(stale: Option<E>, c: Call<E>): seq<Event<E>> {
    Body(c) + AfterBody(stale, c)
  }

  function Body<E>(c: Call<E>): seq<Event<E>> {
    c.body + if c.bodyError.Some? then [Swallow(c.bodyError.value)] else []
  }

  function AfterBody<E>(stale: Option<E>, c: Call<E>): seq<Event<E>> {
    if AtReturn(stale, c).Some? then [Raise(None)]
    else if !Silent(c.body) then []
    else c.convert + if c.convertError.Some? then [Raise(c.convertError)] else Streamed(c)
  }

  /** The events that happen while the result is written. */
  function Streamed<E>(c: Call<E>): seq<Event<E>> {
    Heard(!Silent(c.convert), true, c.stream)
  }

  /** The error an event stands for. */
  function ErrorOf<E>(e: Event<E>): Option<E> {
    match e
    case Raise(text) => text
    case Log(err) => Some(err)
    case Swallow(err) => Some(err)
    case _ => None
  }

  /** Different events stand for different errors. */
  ghost predicate Distinct<E>(events: seq<Event<E>>) {
    forall j, k | 0 <= j < k < |events| && ErrorOf(events[k]).Some? :: ErrorOf(events[k]) != ErrorOf(events[j])
  }

  /** Errors raised in the code have a text; only the test after the body raises without one. */
  predicate HaveTexts<E>(events: seq<Event<E>>) {
    forall k | 0 <= k < |events| && events[k].Raise? :: events[k].text.Some?
  }

  predicate Proper<E>(c: Call<E>) {
    HaveTexts(c.body) && HaveTexts(c.convert) && HaveTexts(c.stream)
  }

  ghost predicate Names<E>(r: Report<E>, e: E) {
    r.text == Some(e) || r.cause == Some(e)
  }

  ghost predicate Says<E>(p: Piece<E>, e: E) {
    match p
    case Exception(r) => Names(r, e)
    case ErrorLog(x) => x == e
    case Tail(t) => t.Some? && Names(t.value, e)
    case _ => false
  }

  ghost predicate Reported<E>(ps: seq<Piece<E>>, e: E) {
    exists k | 0 <= k < |ps| :: Says(ps[k], e)
  }

  /** The k-th event is the first that stands for an error, and it is e. */
  ghost predicate FirstError<E>(events: seq<Event<E>>, k: nat, e: E) {
    && k < |events| && ErrorOf(events[k]) == Some(e)
    && forall j | 0 <= j < k :: Harmless(events[j])
  }

  predicate Harmless<E>(e: Event<E>) { e.Clear? || e.Notice? || e.Ask? }

  /** A raise comes before anything else that touches the indicator or ends the call. */
  predicate RaiseNext<E>(events: seq<Event<E>>) {
    events != [] && (events[0].Raise? || ((events[0].Notice? || events[0].Ask?) && RaiseNext(events[1..])))
  }

  /** An error that stays in the indicator is reported only by a raise that comes next. */
  predicate Lost<E>(events: seq<Event<E>>, k: nat)
    requires k < |events|
  {
    events[k].Swallow? && !RaiseNext(events[k + 1..])
  }

  /** An error raised while the result is written is never sent when the result is not finished. */
  predicate Unsent<E>(stale: Option<E>, c: Call<E>) {
    && Sends(stale, c) && Silent(c.convert) && Hangs(false, true, c.stream)
    && Trailer(Touched(None, c.convert), Streamed(c)).Some?
  }

  lemma ReportedConcat<E>(a: seq<Piece<E>>, b: seq<Piece<E>>, e: E)
    ensures Reported(a + b, e) <==> Reported(a, e) || Reported(b, e)
  {
    if k :| 0 <= k < |a| && Says(a[k], e) {
      assert Says((a + b)[k], e);
    }
    if k :| 0 <= k < |b| && Says(b[k], e) {
      assert Says((a + b)[|a| + k], e);
    }
  }

  lemma ReportedOne<E>(p: Piece<E>, e: E)
    ensures Reported([p], e) <==> Says(p, e)
  {
    assert [p][0] == p;
  }

  lemma {:induction false} NotNamed<E>(ind: Option<E>, events: seq<Event<E>>, e: E)
    requires ind != Some(e) && forall k | 0 <= k < |events| :: ErrorOf(events[k]) != Some(e)
    ensures !Reported(FirstReport(ind, events), e)
    decreases |events|
  {
    if events != [] {
      assert ErrorOf(events[0]) != Some(e);
      if !Speaks(events[0]) {
        NotNamed(Touch(ind, events[0]), events[1..], e);
      }
    }
  }

  /** While e is in the indicator it is reported exactly by a raise that comes next. */
  lemma {:induction false} NamedByRaise<E>(events: seq<Event<E>>, e: E)
    requires forall k | 0 <= k < |events| :: ErrorOf(events[k]) != Some(e)
    ensures Reported(FirstReport(Some(e), events), e) <==> RaiseNext(events)
  {
    if events != [] {
      var (x, rest) := (events[0], events[1..]);
      assert ErrorOf(x) != Some(e);
      if x.Raise? {
        assert Says(FirstReport(Some(e), events)[0], e);
      } else if x.Notice? || x.Ask? {
        NamedByRaise(rest, e);
      } else if !x.Log? {
        NotNamed(Touch(Some(e), x), rest, e);
      }
    }
  }

  lemma {:induction false} FirstErrorIn<E>(ind: Option<E>, events: seq<Event<E>>, k: nat, e: E)
    requires Distinct(events) && FirstError(events, k, e)
    ensures Reported(FirstReport(ind, events), e) <==> !Lost(events, k)
    decreases k
  {
    var rest := events[1..];
    if k > 0 {
      assert Harmless(events[0]);
      FirstErrorIn(Touch(ind, events[0]), rest, k - 1, e);
      assert rest[k - 1 + 1..] == events[k + 1..];
    } else if events[0].Swallow? {
      assert forall j | 0 <= j < |rest| :: rest[j] == events[j + 1] && ErrorOf(rest[j]) != Some(e);
      NamedByRaise(rest, e);
    } else {
      assert Says(FirstReport(ind, events)[0], e);
    }
  }

  lemma {:induction false} ReportOfConcat<E>(ind: Option<E>, a: seq<Event<E>>, b: seq<Event<E>>)
    ensures Touched(ind, a + b) == Touched(Touched(ind, a), b)
    ensures FirstReport(ind, a + b)
            == if FirstReport(ind, a) != [] then FirstReport(ind, a) else FirstReport(Touched(ind, a), b)
    decreases |a|
  {
    if a == [] {
      assert a + b == b;
    } else {
      ReportOfConcat(Touch(ind, a[0]), a[1..], b);
      assert (a + b)[1..] == a[1..] + b;
    }
  }

  /** Of what is sent before a result only the first report names errors. */
  lemma {:induction false} TalkReports<E>(ind: Option<E>, events: seq<Event<E>>, e: E)
    ensures Reported(Talk(ind, events), e) <==> Reported(FirstReport(ind, events), e)
    decreases |events|
  {
    if events != [] {
      var (x, rest) := (events[0], events[1..]);
      var (p, ind1) := (Says1(ind, false, x), Touch(ind, x));
      SaidStep([], ind, false, events);
      NoPieces(ind, false, events);
      if Speaks(x) {
        var more := Said(ind1, true, Heard(true, false, rest));
        SaidAfterReport(ind1, rest);
        assert !Reported(more, e);
        ReportedConcat(p, more, e);
      } else {
        TalkReports(ind1, rest, e);
        assert !Reported(p, e);
        ReportedConcat(p, Talk(ind1, rest), e);
      }
    }
  }

  /** Of what is sent inside a result only the first error log names one. */
  lemma {:induction false} InsideReports<E>(over: bool, events: seq<Event<E>>, e: E)
    ensures Reported(Inside(over, events), e) <==> !over && Reported(FirstLog(events), e)
    decreases |events|
  {
    if events != [] {
      var (x, rest) := (events[0], events[1..]);
      InsideReports(Over(over, true, x), rest, e);
      ReportedConcat(Inside1(over, x), Inside(Over(over, true, x), rest), e);
    }
  }

  /** The report of a stream of events is its trailer, or without one its log. */
  lemma {:induction false} StreamReport<E>(ind: Option<E>, stream: seq<Event<E>>)
    ensures FirstReport(ind, stream)
            == if Trailer(ind, stream).Some? then [Exception(Trailer(ind, stream).value)] else FirstLog(stream)
    decreases |stream|
  {
    if stream != [] && !Speaks(stream[0]) {
      StreamReport(Touch(ind, stream[0]), stream[1..]);
    }
  }

  lemma BodyReport<E>(stale: Option<E>, c: Call<E>)
    ensures FirstReport(stale, Body(c)) == FirstReport(stale, c.body)
    ensures Touched(stale, Body(c)) == AtReturn(stale, c)
  {
    if c.bodyError.Some? {
      ReportOfConcat(stale, c.body, [Swallow(c.bodyError.value)]);
    } else {
      assert c.body + [] == c.body;
    }
  }

  /** The report that the events of a call make. */
  lemma FlowReport<E>(stale: Option<E>, c: Call<E>)
    ensures FirstReport(stale, Flow(stale, c))
            == if !Silent(c.body) then FirstReport(stale, c.body)
               else if AtReturn(stale, c).Some? then [Exception(Report(None, AtReturn(stale, c)))]
               else FirstReport(None, AfterBody(stale, c))
  {
    BodyReport(stale, c);
    ReportOfConcat(stale, Body(c), AfterBody(stale, c));
  }

  lemma {:induction false} HeardAll<E>(over: bool, sending: bool, events: seq<Event<E>>)
    requires !Hangs(over, sending, events)
    ensures Heard(over, sending, events) == events
    decreases |events|
  {
    if events != [] {
      HeardAll(Over(over, sending, events[0]), sending, events[1..]);
    }
  }

  /** A log inside a result that also has a trailer comes after an error of its own. */
  lemma {:induction false} LogAfterTrailer<E>(ind: Option<E>, stream: seq<Event<E>>) returns (i: nat, j: nat)
    requires Trailer(ind, stream).Some? && FirstLog(stream) != []
    ensures i < j < |stream| && stream[i].Raise? && stream[j].Log? && FirstLog(stream) == [ErrorLog(stream[j].err)]
    decreases |stream|
  {
    if stream[0].Raise? {
      i := 0;
      j := LogAt(stream);
    } else {
      i, j := LogAfterTrailer(Touch(ind, stream[0]), stream[1..]);
      i, j := i + 1, j + 1;
    }
  }

  lemma {:induction false} LogAt<E>(stream: seq<Event<E>>) returns (j: nat)
    requires FirstLog(stream) != []
    ensures j < |stream| && stream[j].Log? && FirstLog(stream) == [ErrorLog(stream[j].err)]
  {
    if stream[0].Log? {
      j := 0;
    } else {
      j := LogAt(stream[1..]);
      j := j + 1;
    }
  }

  /** The log inside a result is never the first error when an error was raised before it. */
  lemma LogIsNotFirst<E>(before: seq<Event<E>>, ind: Option<E>, stream: seq<Event<E>>, k: nat, e: E)
    requires HaveTexts(stream) && Distinct(before + stream) && FirstError(before + stream, k, e)
    requires Trailer(ind, stream).Some?
    ensures !Reported(FirstLog(stream), e)
  {
    if FirstLog(stream) != [] {
      var flow, o := before + stream, |before|;
      var i, j := LogAfterTrailer(ind, stream);
      hide Trailer, FirstLog;
      assert flow[o + i] == stream[i] && flow[o + j] == stream[j];
      assert k <= o + i;
      assert ErrorOf(flow[o + j]) != ErrorOf(flow[k]);
      ReportedOne(ErrorLog(stream[j].err), e);
    }
  }

  lemma {:induction false} HeardHasTexts<E>(over: bool, sending: bool, events: seq<Event<E>>)
    requires HaveTexts(events)
    ensures HaveTexts(Heard(over, sending, events))
    decreases |events|
  {
    if events != [] {
      HeardHasTexts(Over(over, sending, events[0]), sending, events[1..]);
    }
  }

  lemma WrittenReports<E>(ind: Option<E>, over: bool, stream: seq<Event<E>>, e: E)
    ensures Reported(Written(ind, over, stream), e)
            <==> !over && (|| Reported(FirstLog(Heard(over, true, stream)), e)
                           || (&& !Hangs(over, true, stream) && Trailer(ind, stream).Some?
                               && Names(Trailer(ind, stream).value, e)))
  {
    var heard := Heard(over, true, stream);
    var tail := if Hangs(over, true, stream) then [] else [Tail(if over then None else Trailer(ind, stream))];
    ReportedConcat([Head], Inside(over, heard) + tail, e);
    ReportedConcat(Inside(over, heard), tail, e);
    ReportedOne(Head, e);
    InsideReports(over, heard, e);
    if tail != [] {
      ReportedOne(tail[0], e);
    }
  }

  /** Inside a result the first error is reported unless the result is never finished. */
  lemma InResult<E>(stale: Option<E>, c: Call<E>, k: nat, e: E)
    requires Sends(stale, c) && Silent(c.convert) && Proper(c)
    requires Distinct(Flow(stale, c)) && FirstError(Flow(stale, c), k, e)
    ensures var ind := Touched(None, c.convert);
            Reported(Written(ind, false, c.stream), e)
            <==> Reported(FirstReport(ind, Streamed(c)), e) && !Unsent(stale, c)
  {
    var (ind, heard) := (Touched(None, c.convert), Streamed(c));
    WrittenReports(ind, false, c.stream, e);
    StreamReport(ind, heard);
    HeardHasTexts(false, true, c.stream);
    if !Hangs(false, true, c.stream) {
      HeardAll(false, true, c.stream);
    }
    if Trailer(ind, heard).Some? {
      Assoc(Body(c), c.convert, heard);
      LogIsNotFirst(Body(c) + c.convert, ind, heard, k, e);
      ReportedOne(Exception(Trailer(ind, heard).value), e);
    }
  }

  lemma ResultReports<E>(stale: Option<E>, c: Call<E>, k: nat, e: E)
    requires Returns(stale, c) && Proper(c)
    requires Distinct(Flow(stale, c)) && FirstError(Flow(stale, c), k, e)
    ensures Reported(ResultPieces(c), e)
            <==> Reported(FirstReport(None, AfterBody(stale, c)), e) && !Unsent(stale, c)
  {
    hide Talk, Flow, Written, Hangs, Distinct, FirstError, Reported;
    if c.convertError.Some? {
      TalkReports(None, c.convert + [Raise(c.convertError)], e);
    } else {
      TalkReports(None, c.convert, e);
      ReportOfConcat(None, c.convert, Streamed(c));
      SilentServed(c.convert);
      if Sends(stale, c) {
        var ind := Touched(None, c.convert);
        ReportedConcat(Talk(None, c.convert), Written(ind, !Silent(c.convert), c.stream), e);
        if Silent(c.convert) {
          ReportedNone(e);
          InResult(stale, c, k, e);
        } else {
          WrittenReports(ind, true, c.stream, e);
        }
      } else {
        assert Talk(None, c.convert) + [] == Talk(None, c.convert);
      }
    }
  }

  lemma ReportedNone<E>(e: E)
    ensures !Reported([], e)
  {
  }

  /** The first error of a call is reported if and only if it did not stay in the indicator or a raise
      came next, and it was not raised inside a result that is never finished. */
  lemma FirstErrorReported<E>(stale: Option<E>, c: Call<E>, k: nat, e: E)
    requires Proper(c) && Distinct(Flow(stale, c)) && FirstError(Flow(stale, c), k, e)
    ensures Reported(CallPieces(stale, c), e) <==> !Lost(Flow(stale, c), k) && !Unsent(stale, c)
  {
    FirstErrorIn(stale, Flow(stale, c), k, e);
    FlowReport(stale, c);
    TalkReports(stale, c.body, e);
    SilentServed(c.body);
    ReportedNone(e);
    if Returns(stale, c) {
      ResultReports(stale, c, k, e);
    }
    hide Talk, Flow, Lost, FirstReport, ResultPieces, Hangs, Reported;
    if Hangs(false, false, c.body) || !Silent(c.body) {
      ReportedConcat(Talk(stale, c.body), [], e);
    } else if AtReturn(stale, c).Some? {
      ReportedConcat(Talk(stale, c.body), [Exception(Report(None, AtReturn(stale, c)))], e);
    } else {
      ReportedConcat(Talk(stale, c.body), ResultPieces(c), e);
    }
  }

  /** A call with an error in it has a first one. */
  lemma {:induction false} FirstErrorExists<E>(stale: Option<E>, c: Call<E>, j: nat) returns (k: nat, e: E)
    requires Proper(c) && j < |Flow(stale, c)| && ErrorOf(Flow(stale, c)[j]).Some?
    ensures FirstError(Flow(stale, c), k, e)
  {
    var flow := Flow(stale, c);
    if i :| 0 <= i < j && ErrorOf(flow[i]).Some? {
      k, e := FirstErrorExists(stale, c, i);
    } else {
      k, e := j, ErrorOf(flow[j]).value;
      HeardHasTexts(!Silent(c.convert), true, c.stream);
      assert forall i | 0 <= i < |flow| - 1 && flow[i].Raise? :: flow[i].text.Some?;
    }
  }

  /** So an error in a call is either followed by the report of the first one, or that is lost in one of
      the two ways. */
  lemma SomeErrorReported<E>(stale: Option<E>, c: Call<E>, j: nat)
    requires Proper(c) && Distinct(Flow(stale, c))
    requires j < |Flow(stale, c)| && ErrorOf(Flow(stale, c)[j]).Some?
    ensures exists k: nat, e :: FirstError(Flow(stale, c), k, e)
              && (Reported(CallPieces(stale, c), e) <==> !Lost(Flow(stale, c), k) && !Unsent(stale, c))
  {
    var k, e := FirstErrorExists(stale, c, j);
    FirstErrorReported(stale, c, k, e);
  }

  predicate IsReport<E>(p: Piece<E>) {
    p.Exception? || p.ErrorLog? || (p.Tail? && p.trailer.Some?)
  }

  function Reports<E>(ps: seq<Piece<E>>): nat {
    if ps == [] then 0 else (if IsReport(ps[0]) then 1 else 0) + Reports(ps[1..])
  }

  lemma {:induction false} ReportsConcat<E>(a: seq<Piece<E>>, b: seq<Piece<E>>)
    ensures Reports(a + b) == Reports(a) + Reports(b)
  {
    if a == [] {
      assert a + b == b;
    } else {
      ReportsConcat(a[1..], b);
      assert (a + b)[1..] == a[1..] + b;
    }
  }

  lemma {:induction false} TalkCount<E>(ind: Option<E>, events: seq<Event<E>>)
    ensures Reports(Talk(ind, events)) == if Silent(events) then 0 else 1
    decreases |events|
  {
    if events != [] {
      var (x, rest) := (events[0], events[1..]);
      var (p, ind1) := (Says1(ind, false, x), Touch(ind, x));
      SilentRest(events);
      SaidStep([], ind, false, events);
      NoPieces(ind, false, events);
      if Speaks(x) {
        var more := Said(ind1, true, Heard(true, false, rest));
        SaidAfterReport(ind1, rest);
        ReportsConcat(p, more);
      } else {
        TalkCount(ind1, rest);
        ReportsConcat(p, Talk(ind1, rest));
      }
    }
  }

  lemma {:induction false} InsideCount<E>(over: bool, events: seq<Event<E>>)
    ensures Reports(Inside(over, events)) == if over then 0 else |FirstLog(events)|
    decreases |events|
  {
    if events != [] {
      var (x, rest) := (events[0], events[1..]);
      InsideCount(Over(over, true, x), rest);
      ReportsConcat(Inside1(over, x), Inside(Over(over, true, x), rest));
    }
  }

  lemma WrittenCount<E>(ind: Option<E>, over: bool, stream: seq<Event<E>>)
    ensures Reports(Written(ind, over, stream))
            == if over then 0
               else |FirstLog(Heard(over, true, stream))|
                    + if !Hangs(over, true, stream) && Trailer(ind, stream).Some? then 1 else 0
  {
    var heard := Heard(over, true, stream);
    var tail := if Hangs(over, true, stream) then [] else [Tail(if over then None else Trailer(ind, stream))];
    ReportsConcat([Head], Inside(over, heard) + tail);
    ReportsConcat(Inside(over, heard), tail);
    InsideCount(over, heard);
    assert tail != [] ==> tail[1..] == [];
  }

  /** No call reports twice, except by an error log inside a result that is finished with a trailer. */
  lemma NoSecondReport<E>(stale: Option<E>, c: Call<E>)
    ensures Reports(CallPieces(stale, c)) <= 1
            <==> !(&& Sends(stale, c) && Silent(c.convert) && FirstLog(Streamed(c)) != []
                   && !Hangs(false, true, c.stream) && Trailer(Touched(None, c.convert), c.stream).Some?)
  {
    var rest := if Hangs(false, false, c.body) || !Silent(c.body) then []
                else if AtReturn(stale, c).Some? then [Exception(Report(None, AtReturn(stale, c)))]
                else ResultPieces(c);
    ReportsConcat(Talk(stale, c.body), rest);
    TalkCount(stale, c.body);
    SilentServed(c.body);
    SilentServed(c.convert);
    if Returns(stale, c) {
      ResultCount(c);
    } else {
      assert rest != [] ==> rest[1..] == [];
    }
    hide Talk, ResultPieces, Hangs, Streamed, Trailer;
  }

  lemma ResultCount<E>(c: Call<E>)
    ensures Reports(ResultPieces(c))
            == if c.convertError.Some? || !Silent(c.convert) then 1
               else |FirstLog(Streamed(c))|
                    + if !Hangs(false, true, c.stream) && Trailer(Touched(None, c.convert), c.stream).Some?
                      then 1 else 0
  {
    if c.convertError.Some? {
      var all := c.convert + [Raise(c.convertError)];
      TalkCount(None, all);
      assert Speaks(all[|c.convert|]);
    } else {
      var ind := Touched(None, c.convert);
      var rest := if Hangs(false, false, c.convert) then [] else Written(ind, !Silent(c.convert), c.stream);
      TalkCount(None, c.convert);
      SilentServed(c.convert);
      ReportsConcat(Talk(None, c.convert), rest);
      WrittenCount(ind, !Silent(c.convert), c.stream);
    }
  }
}
