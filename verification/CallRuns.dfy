/** Calls one after another on one connection: what a call leaves to the next, and which answer belongs to
    which call. */
module CallRuns {
  import opened Basics
  import opened ErrorReport
  import opened FirstErrors

  /** Logs and requests do not touch the indicator. */
  predicate Untouched<E>(events: seq<Event<E>>) {
    forall k | 0 <= k < |events| :: events[k].Log? || events[k].Notice? || events[k].Ask?
  }

  lemma {:induction false} TouchedIff<E>(ind: Option<E>, events: seq<Event<E>>, e: E)
    ensures Touched(ind, events) == Some(e)
            <==> (ind == Some(e) && Untouched(events))
                 || exists k | 0 <= k < |events| :: events[k] == Swallow(e) && Untouched(events[k + 1..])
    decreases |events|
  {
    if events != [] {
      var rest := events[1..];
      TouchedIff(Touch(ind, events[0]), rest, e);
      assert Untouched(events) <==> Untouched([events[0]]) && Untouched(rest) by {
        assert events == [events[0]] + rest;
      }
      forall k | 0 <= k < |rest| ensures rest[k] == events[k + 1] && rest[k + 1..] == events[k + 2..] {
      }
      if events[0] == Swallow(e) && Untouched(rest) {
        assert events[0 + 1..] == rest;
      }
      if k :| 0 <= k < |rest| && rest[k] == Swallow(e) && Untouched(rest[k + 1..]) {
        assert events[k + 1] == Swallow(e) && Untouched(events[k + 1 + 1..]);
      }
      if k :| 0 <= k < |events| && events[k] == Swallow(e) && Untouched(events[k + 1..]) {
        if k > 0 {
          assert rest[k - 1] == Swallow(e) && Untouched(rest[k - 1 + 1..]);
        }
      }
    }
  }

  /** An error is left to the next call exactly when the result was written, the error stayed in the
      indicator on the way, and after it came nothing but logs and requests. */
  lemma LeftToNext<E>(stale: Option<E>, c: Call<E>, e: E)
    ensures Leaves(stale, c) == Some(e) <==>
              && Sends(stale, c)
              && exists k | 0 <= k < |c.convert + c.stream| ::
                   (c.convert + c.stream)[k] == Swallow(e) && Untouched((c.convert + c.stream)[k + 1..])
  {
    ReportOfConcat(None, c.convert, c.stream);
    TouchedIff(None, c.convert + c.stream, e);
  }

  predicate AllHarmless<E>(events: seq<Event<E>>) {
    forall k | 0 <= k < |events| :: Harmless(events[k])
  }

  /** A call in which nothing goes wrong and whose result is written in peace is answered by its result
      exactly when no error was left to it or its body cleared the indicator; otherwise it is charged
      with that error. */
  lemma InnocentCall<E>(stale: Option<E>, c: Call<E>)
    requires AllHarmless(c.body) && AllHarmless(c.convert) && (forall k | 0 <= k < |c.stream| :: c.stream[k].Clear?)
    requires c.bodyError.None? && c.convertError.None?
    ensures CallPieces(stale, c)
            == Talk(stale, c.body)
               + if stale.Some? && Clear !in c.body then [Exception(Report(None, stale))]
                 else Talk(None, c.convert) + [Head, Tail(None)]
    ensures Leaves(stale, c).None? && !CallHangs(stale, c)
  {
    HarmlessTouch(stale, c.body);
    HarmlessTouch(None, c.convert);
    HarmlessTouch(Touched(None, c.convert), c.stream);
    SilentServed(c.body);
    SilentServed(c.convert);
    assert Quiet(c.stream);
    InsideQuiet(c.stream);
    WholeResult(None, c.stream);
    NoTrailer(None, c.stream);
  }

  lemma {:induction false} HarmlessTouch<E>(ind: Option<E>, events: seq<Event<E>>)
    requires AllHarmless(events)
    ensures Silent(events) && Touched(ind, events) == if Clear in events then None else ind
    decreases |events|
  {
    if events != [] {
      SilentRest(events);
      HarmlessTouch(Touch(ind, events[0]), events[1..]);
      assert events == [events[0]] + events[1..];
    }
  }

  lemma {:induction false} NoTrailer<E>(ind: Option<E>, events: seq<Event<E>>)
    requires forall k | 0 <= k < |events| :: events[k].Clear?
    ensures Trailer(ind, events).None?
    decreases |events|
  {
    if events != [] {
      NoTrailer(Touch(ind, events[0]), events[1..]);
    }
  }

  /** What a run of calls sends, up to the first call that hangs. */
  function SessionPieces<E>(stale: Option<E>, calls: seq<Call<E>>): seq<Piece<E>>
    decreases |calls|
  {
    if calls == [] then []
    else CallPieces(stale, calls[0])
         + if CallHangs(stale, calls[0]) then [] else SessionPieces(Leaves(stale, calls[0]), calls[1..])
  }

  /** receive_loop: call after call on one connection, until a call hangs. */
  method Serve<E>(client: Client<E>, calls: seq<Call<E>>) returns (hangs: bool)
    requires client.Idle()
    modifies client
    ensures client.out == old(client.out) + SessionPieces(old(client.indicator), calls)
    ensures !hangs ==> client.Idle()
  {
    hide CallPieces, Leaves, CallHangs;
    ghost var all := client.out + SessionPieces(client.indicator, calls);
    assert calls[0..] == calls;
    hangs := false;
    for i := 0 to |calls|
      invariant client.Idle() && client.out + SessionPieces(client.indicator, calls[i..]) == all
    {
      assert calls[i..][1..] == calls[i + 1..];
      ghost var (stale, before) := (client.indicator, client.out);
      hangs := client.Execute(calls[i]);
      if hangs {
        assert CallPieces(stale, calls[i]) + [] == CallPieces(stale, calls[i]);
        return;
      }
      Assoc(before, CallPieces(stale, calls[i]), SessionPieces(client.indicator, calls[i + 1..]));
    }
  }

  /** An exception inside the generator of a set-returning function: the shortened result counts as a
      success, and the next call is charged with the exception whatever it does. */
  lemma GeneratorExceptionLost<E>(e: E, next: Call<E>)
    requires next.body == [] && next.bodyError.None?
    ensures SessionPieces(None, [Call([], None, [Swallow(e)], None, false, []), next])
            == [Head, Tail(None), Exception(Report(None, Some(e)))]
  {
    var first := Call([], None, [Swallow(e)], None, false, []);
    SwallowedTalk(e);
    WholeResult(Some(e), []);
    ChargedNext(first, next, e);
  }

  lemma SwallowedTalk<E>(e: E)
    ensures Talk(None, [Swallow(e)]) == [] && Silent([Swallow(e)]) && Touched(None, [Swallow(e)]) == Some(e)
    ensures !Hangs(false, false, [Swallow(e)]) && !Hangs(false, true, [Swallow(e)])
    ensures Trailer(None, [Swallow(e)]).None?
  {
    var events := [Swallow(e)];
    assert events[1..] == [];
    assert Heard(false, false, events) == events;
    assert Says1(None, false, events[0]) == [] && Said(Some(e), false, events[1..]) == [];
    assert Said(None, false, events) == [];
    assert Touched(None, events) == Touched(Some(e), events[1..]);
  }

  /** A missing item of a short innermost list leaves an IndexError the same way. */
  lemma ShortListChargesNext<E>(e: E, next: Call<E>)
    requires next.body == [] && next.bodyError.None?
    ensures SessionPieces(None, [Call([], None, [], None, false, [Swallow(e)]), next])
            == [Head, Tail(None), Exception(Report(None, Some(e)))]
  {
    var first := Call([], None, [], None, false, [Swallow(e)]);
    SwallowedTalk(e);
    WholeResult(None, first.stream);
    ChargedNext(first, next, e);
  }

  lemma ChargedNext<E>(first: Call<E>, next: Call<E>, e: E)
    requires !CallHangs(None, first) && Leaves(None, first) == Some(e)
    requires next.body == [] && next.bodyError.None?
    ensures SessionPieces(None, [first, next]) == CallPieces(None, first) + [Exception(Report(None, Some(e)))]
  {
    var calls := [first, next];
    assert calls[1..] == [next] && [next][1..] == [];
    assert CallPieces(Some(e), next) == [Exception(Report(None, Some(e)))];
    assert SessionPieces(Some(e), [next]) == CallPieces(Some(e), next) + [];
  }

  /** One answer as the other side reads it. */
  datatype Answer<E> = Failed(report: Report<E>) | Logged(err: E) | Result(trailer: Option<Report<E>>)

  function AnswerOf<E>(ps: seq<Piece<E>>): Answer<E>
    requires OneAnswer(ps)
  {
    if IsTalk(ps[0]) then AnswerOf(ps[1..])
    else if ps[0].Exception? then Failed(ps[0].report)
    else if ps[0].ErrorLog? then Logged(ps[0].err)
    else Result(ps[1].trailer)
  }

  /** Reading answers off the wire, notes and requests apart; None once something stands inside a
      result. */
  function Read<E>(ps: seq<Piece<E>>): Option<seq<Answer<E>>> {
    if ps == [] then Some([])
    else if IsTalk(ps[0]) then Read(ps[1..])
    else
      var n := if ps[0].Head? then 2 else 1;
      if n > |ps| || !IsAnswer(ps[..n]) then None
      else
        var rest := Read(ps[n..]);
        if rest.None? then None else Some([AnswerOf(ps[..n])] + rest.value)
  }

  lemma {:induction false} ReadAnswer<E>(ps: seq<Piece<E>>, rest: seq<Piece<E>>)
    requires OneAnswer(ps) && Read(rest).Some?
    ensures Read(ps + rest) == Some([AnswerOf(ps)] + Read(rest).value)
  {
    if IsTalk(ps[0]) {
      ReadAnswer(ps[1..], rest);
      assert (ps + rest)[1..] == ps[1..] + rest;
    } else {
      assert (ps + rest)[..|ps|] == ps && (ps + rest)[|ps|..] == rest;
    }
  }

  /** Nothing of a call gets into the answers to others: it is orderly and leaves no error. */
  predicate Tidy<E>(c: Call<E>) {
    Orderly(None, c) && Leaves(None, c).None?
  }

  lemma TidyEnds<E>(c: Call<E>)
    requires Tidy(c)
    ensures OneAnswer(CallPieces(None, c)) && !CallHangs(None, c)
  {
    AnswersOnce(None, c);
    InsideQuiet(c.stream);
  }

  /** As long as the calls are tidy, the n-th answer read is the answer to the n-th call. */
  lemma {:induction false} AnswersMatchCalls<E>(calls: seq<Call<E>>)
    requires forall i | 0 <= i < |calls| :: Tidy(calls[i])
    ensures forall n | 0 <= n < |calls| :: OneAnswer(CallPieces(None, calls[n]))
    ensures var r := Read(SessionPieces(None, calls));
            && r.Some? && |r.value| == |calls|
            && forall n | 0 <= n < |calls| :: r.value[n] == AnswerOf(CallPieces(None, calls[n]))
  {
    if calls != [] {
      var rest := calls[1..];
      AnswersMatchCalls(rest);
      assert Tidy(calls[0]);
      TidyEnds(calls[0]);
      hide CallPieces, OneAnswer, AnswerOf, Read, CallHangs;
      ReadAnswer(CallPieces(None, calls[0]), SessionPieces(None, rest));
      forall n | 0 <= n < |calls| ensures OneAnswer(CallPieces(None, calls[n])) {
        if n > 0 {
          assert calls[n] == rest[n - 1];
        }
      }
    }
  }
}
