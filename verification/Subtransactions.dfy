/** Explicit and implicit subtransactions through nested calls (src/subtransaction_handler.c,
    handle_sql_message in src/sqlhandler.c, plcontainer_get_result in src/plcontainer.c).

    User code opens explicit subtransactions; every SQL message runs inside an implicit one; SQL
    may call functions again, whose code opens further ones.  Releasing or rolling back always
    acts on whatever subtransaction is innermost, so the code is right only if that is the one
    it means.  `sub` and `mismatch` are history: they name the subtransaction each record was
    made for, and record that some release or rollback hit another one. */
module Subtransactions {

  /** What PLySubtransactionData keeps to restore. */
  datatype Saved = Saved(sub: nat, ctx: int, owner: int)

  datatype Ended = Ended(sub: nat, committed: bool)

  /** subs: open subtransactions, innermost last; explicit: the records, latest first; log: the
      subtransactions that ended, in order, each committed or rolled back. */
  datatype State = State(subs: seq<nat>, ctx: int, owner: int, explicit: seq<Saved>, log: seq<Ended>,
                         next: nat, mismatch: bool)

  // ------------------------------------------------ the transaction manager

  /** BeginInternalSubTransaction: the new subtransaction brings its context and its owner. */
  function Begin(s: State): State {
    s.(subs := s.subs + [s.next], ctx := s.next, owner := s.next, next := s.next + 1)
  }

  /** Release or rollback of the innermost subtransaction, meant for `sub`; context and owner
      are then those of the subtransaction around it. */
  function End(s: State, sub: nat, commit: bool): State {
    if s.subs == [] then s.(mismatch := true)
    else
      var n := |s.subs| - 1;
      var around: int := if n == 0 then -1 else s.subs[n - 1];
      s.(subs := s.subs[..n], ctx := around, owner := around, log := s.log + [Ended(s.subs[n], commit)],
         mismatch := s.mismatch || s.subs[n] != sub)
  }

  // ------------------------------------------------------ explicit handling

  function Enter(s: State): State {
    var s1 := Begin(s);
    s1.(ctx := s.ctx, explicit := [Saved(s.next, s.ctx, s.owner)] + s.explicit)
  }

  /** Ends the innermost subtransaction, drops the latest record and restores what it kept. */
  function Close(s: State, commit: bool): State
    requires s.explicit != []
  {
    var saved := s.explicit[0];
    End(s, saved.sub, commit).(explicit := s.explicit[1..], ctx := saved.ctx, owner := saved.owner)
  }

  /** With no record at all the exit is refused; that is the only check. */
  function Exit(s: State, commit: bool): State {
    if s.explicit == [] then s else Close(s, commit)
  }

  /** plcontainer_abort_open_subtransactions */
  function AbortOpen(s: State, level: nat): State
    decreases |s.explicit|
  {
    if |s.explicit| > level then AbortOpen(Close(s, false), level) else s
  }

  // ------------------------------------------------------------ calls as trees

  /** What one call does, in order: messages that enter or exit a subtransaction, and SQL, which
      makes calls of its own and may fail.  A call whose last SQL failed ends there. */
  datatype Event = Entering | Exiting(commit: bool) | Sql(calls: seq<Call>, fails: bool)
  datatype Call = Call(events: seq<Event>)

  /** handle_sql_message: an implicit subtransaction around the SQL, context and owner put back. */
  function RunSql(s: State, calls: seq<Call>, fails: bool): State
    decreases calls, 1
  {
    var s1 := Begin(s).(ctx := s.ctx);
    End(RunCalls(s1, calls), s.next, !fails).(ctx := s.ctx, owner := s.owner)
  }

  function RunCalls(s: State, calls: seq<Call>): State
    decreases calls, 0
  {
    if calls == [] then s else RunCalls(RunCall(s, calls[0]), calls[1..])
  }

  function RunEvents(s: State, events: seq<Event>): State
    decreases events, 0
  {
    if events == [] then s
    else match events[0]
      case Entering => RunEvents(Enter(s), events[1..])
      case Exiting(commit) => RunEvents(Exit(s, commit), events[1..])
      case Sql(calls, fails) =>
        var s1 := RunSql(s, calls, fails);
        if fails then s1 else RunEvents(s1, events[1..])
  }

  /** plcontainer_get_result: whether the call ends normally or by an error, it aborts what is
      still open above the level it started from. */
  function RunCall(s: State, c: Call): State
    decreases c, 1
  {
    AbortOpen(RunEvents(s, c.events), |s.explicit|)
  }

  // -------------------------------------------------------------- discipline

  /** Each call exits only what it entered.  An exit with nothing open anywhere is harmless.
      own: entered and not exited by this call; outer: open when it started. */
  predicate Disciplined(c: Call, outer: nat)
    decreases c, 1
  {
    DisciplinedEvents(c.events, 0, outer)
  }

  predicate DisciplinedEvents(events: seq<Event>, own: nat, outer: nat)
    decreases events, 0
  {
    events == [] ||
    match events[0]
    case Entering => DisciplinedEvents(events[1..], own + 1, outer)
    case Exiting(_) =>
      if own > 0 then DisciplinedEvents(events[1..], own - 1, outer)
      else outer == 0 && DisciplinedEvents(events[1..], own, outer)
    case Sql(calls, fails) =>
      DisciplinedCalls(calls, own + outer) && (fails || DisciplinedEvents(events[1..], own, outer))
  }

  predicate DisciplinedCalls(calls: seq<Call>, outer: nat)
    decreases calls, 0
  {
    calls == [] || (Disciplined(calls[0], outer) && DisciplinedCalls(calls[1..], outer))
  }

  // ----------------------------------------------------------------- results

  /** Nesting, records, context and owner are what they were. */
  predicate Same(s: State, s': State) {
    s'.subs == s.subs && s'.ctx == s.ctx && s'.owner == s.owner && s'.explicit == s.explicit
  }

  function Ids(log: seq<Ended>): (ids: seq<nat>)
    ensures |ids| == |log|
  {
    if log == [] then [] else Ids(log[..|log| - 1]) + [log[|log| - 1].sub]
  }

  /** Numbers in use are below `next`, and every subtransaction ever begun is either open or has
      ended, once. */
  ghost predicate Fresh(s: State) {
    && (forall i | 0 <= i < |s.subs| :: s.subs[i] < s.next)
    && (forall i | 0 <= i < |s.explicit| :: s.explicit[i].sub < s.next)
    && (forall id | 0 <= id < s.next :: multiset(s.subs)[id] + multiset(Ids(s.log))[id] == 1)
    && (forall id | s.next <= id :: multiset(Ids(s.log))[id] == 0)
  }

  lemma BeginIsFresh(s: State)
    requires Fresh(s)
    ensures Fresh(Begin(s))
  {
    var s' := Begin(s);
    assert forall id :: multiset(s'.subs)[id] == multiset(s.subs)[id] + (if id == s.next then 1 else 0);
    assert multiset(s.subs)[s.next] == 0;
  }

  lemma EndIsFresh(s: State, sub: nat, commit: bool)
    requires Fresh(s)
    ensures Fresh(End(s, sub, commit))
  {
    if s.subs != [] {
      var n := |s.subs| - 1;
      var s' := End(s, sub, commit);
      assert s.subs == s.subs[..n] + [s.subs[n]];
      assert s'.log[..|s.log|] == s.log;
      assert Ids(s'.log) == Ids(s.log) + [s.subs[n]];
    }
  }

  /** A call starts at top level or inside the implicit subtransaction of some SQL. */
  ghost predicate AtStart(s: State) {
    Fresh(s) && (s.explicit != [] ==> s.subs != [] && s.subs[|s.subs| - 1] != s.explicit[0].sub)
  }

  /** s is base after k explicit entries not yet exited: closing them one by one leads back. */
  predicate Opened(base: State, s: State, k: nat)
    decreases k
  {
    if k == 0 then Same(base, s)
    else
      && s.explicit != [] && s.subs != [] && s.subs[|s.subs| - 1] == s.explicit[0].sub
      && Opened(base, Close(s, false), k - 1)
  }

  /** What a run does to a state that it must not disturb. */
  ghost predicate Outcome(s: State, s': State, disciplined: bool) {
    if disciplined then Same(s, s') && s'.mismatch == s.mismatch && Fresh(s') else s'.mismatch
  }

  // A mismatch is never forgotten.

  lemma {:induction false} AbortKeepsMismatch(s: State, level: nat)
    requires s.mismatch
    ensures AbortOpen(s, level).mismatch
    decreases |s.explicit|
  {
    if |s.explicit| > level {
      AbortKeepsMismatch(Close(s, false), level);
    }
  }

  lemma {:induction false} CallKeepsMismatch(s: State, c: Call)
    requires s.mismatch
    ensures RunCall(s, c).mismatch
    decreases c, 1
  {
    EventsKeepMismatch(s, c.events);
    AbortKeepsMismatch(RunEvents(s, c.events), |s.explicit|);
  }

  lemma {:induction false} EventsKeepMismatch(s: State, events: seq<Event>)
    requires s.mismatch
    ensures RunEvents(s, events).mismatch
    decreases events, 0
  {
    if events != [] {
      match events[0]
      case Entering => EventsKeepMismatch(Enter(s), events[1..]);
      case Exiting(commit) => EventsKeepMismatch(Exit(s, commit), events[1..]);
      case Sql(calls, fails) =>
        CallsKeepMismatch(Begin(s).(ctx := s.ctx), calls);
        if !fails {
          EventsKeepMismatch(RunSql(s, calls, fails), events[1..]);
        }
    }
  }

  lemma {:induction false} CallsKeepMismatch(s: State, calls: seq<Call>)
    requires s.mismatch
    ensures RunCalls(s, calls).mismatch
    decreases calls, 0
  {
    if calls != [] {
      CallKeepsMismatch(s, calls[0]);
      CallsKeepMismatch(RunCall(s, calls[0]), calls[1..]);
    }
  }

  lemma {:induction false} OpenedFrom(base: State, s: State, s': State, k: nat)
    requires Opened(base, s, k) && Same(s, s')
    ensures Opened(base, s', k) && |s.explicit| == |base.explicit| + k
    decreases k
  {
    if k > 0 {
      OpenedFrom(base, Close(s, false), Close(s', false), k - 1);
    }
  }

  lemma EnterOpens(base: State, s: State, k: nat)
    requires Opened(base, s, k) && Fresh(s)
    ensures Opened(base, Enter(s), k + 1) && Fresh(Enter(s)) && Enter(s).mismatch == s.mismatch
  {
    BeginIsFresh(s);
    var s' := Close(Enter(s), false);
    assert Enter(s).subs[..|s.subs|] == s.subs;
    assert Same(s, s');
    OpenedFrom(base, s, s', k);
  }

  /** Aborting what is open leads back to where the call started. */
  lemma {:induction false} AbortRestores(base: State, s: State, k: nat)
    requires Opened(base, s, k) && Fresh(s)
    ensures var s' := AbortOpen(s, |base.explicit|);
            Same(base, s') && s'.mismatch == s.mismatch && Fresh(s')
    decreases k
  {
    OpenedFrom(base, s, s, k);
    if k > 0 {
      EndIsFresh(s, s.explicit[0].sub, false);
      AbortRestores(base, Close(s, false), k - 1);
    }
  }

  lemma CloseOne(base: State, s: State, own: nat, commit: bool)
    requires Opened(base, s, own) && own > 0 && Fresh(s)
    ensures Opened(base, Close(s, commit), own - 1) && Fresh(Close(s, commit))
    ensures Close(s, commit).mismatch == s.mismatch && s.explicit != []
  {
    EndIsFresh(s, s.explicit[0].sub, commit);
    OpenedFrom(base, Close(s, false), Close(s, commit), own - 1);
  }

  /** What a call entered last is what its exit ends, and the flag says how. */
  lemma ExitEnds(base: State, s: State, own: nat, commit: bool)
    requires Opened(base, s, own) && own > 0
    ensures s.explicit != [] && Exit(s, commit).log == s.log + [Ended(s.explicit[0].sub, commit)]
  {
  }

  lemma CloseForeign(base: State, s: State, commit: bool)
    requires AtStart(base) && Opened(base, s, 0) && base.explicit != []
    ensures Exit(s, commit).mismatch
  {
  }

  lemma {:induction false} CallOutcome(s: State, c: Call)
    requires AtStart(s)
    ensures Outcome(s, RunCall(s, c), Disciplined(c, |s.explicit|))
    decreases c, 1
  {
    var own := EventsOutcome(s, s, 0, c.events);
    var s' := RunEvents(s, c.events);
    if Disciplined(c, |s.explicit|) {
      AbortRestores(s, s', own);
    } else {
      AbortKeepsMismatch(s', |s.explicit|);
    }
  }

  lemma {:induction false} EventsOutcome(base: State, s: State, own: nat, events: seq<Event>) returns (own': nat)
    requires AtStart(base) && Fresh(s) && Opened(base, s, own)
    ensures var s' := RunEvents(s, events);
            if DisciplinedEvents(events, own, |base.explicit|)
            then Opened(base, s', own') && Fresh(s') && s'.mismatch == s.mismatch
            else s'.mismatch
    decreases events, 0
  {
    hide Fresh, AtStart, Enter, Close, RunSql;
    own' := own;
    if events != [] {
      OpenedFrom(base, s, s, own);
      match events[0]
      case Entering =>
        EnterOpens(base, s, own);
        own' := EventsOutcome(base, Enter(s), own + 1, events[1..]);
      case Exiting(commit) =>
        if own > 0 {
          CloseOne(base, s, own, commit);
          own' := EventsOutcome(base, Close(s, commit), own - 1, events[1..]);
        } else if base.explicit == [] {
          own' := EventsOutcome(base, s, own, events[1..]);
        } else {
          CloseForeign(base, s, commit);
          EventsKeepMismatch(Exit(s, commit), events[1..]);
        }
      case Sql(calls, fails) =>
        SqlOutcome(s, calls, fails);
        own' := AfterSql(base, s, own, events);
    }
  }

  lemma {:induction false} AfterSql(base: State, s: State, own: nat, events: seq<Event>) returns (own': nat)
    requires AtStart(base) && Fresh(s) && Opened(base, s, own)
    requires events != [] && events[0].Sql?
    requires |s.explicit| == |base.explicit| + own
    requires Outcome(s, RunSql(s, events[0].calls, events[0].fails), DisciplinedCalls(events[0].calls, |s.explicit|))
    ensures var s' := RunEvents(s, events);
            if DisciplinedEvents(events, own, |base.explicit|)
            then Opened(base, s', own') && Fresh(s') && s'.mismatch == s.mismatch
            else s'.mismatch
    decreases events[1..], 1
  {
    own' := own;
    var s1 := RunSql(s, events[0].calls, events[0].fails);
    if DisciplinedCalls(events[0].calls, |s.explicit|) {
      OpenedFrom(base, s, s1, own);
      if !events[0].fails {
        own' := EventsOutcome(base, s1, own, events[1..]);
      }
    } else if !events[0].fails {
      EventsKeepMismatch(s1, events[1..]);
    }
  }

  /** The last subtransaction that ended is this one, released or rolled back. */
  predicate LastEnded(s: State, sub: nat, committed: bool) {
    s.log != [] && s.log[|s.log| - 1] == Ended(sub, committed)
  }

  /** SQL ends in its own subtransaction, which is released if it succeeds and rolled back if it fails. */
  lemma {:induction false} SqlOutcome(s: State, calls: seq<Call>, fails: bool)
    requires Fresh(s)
    ensures Outcome(s, RunSql(s, calls, fails), DisciplinedCalls(calls, |s.explicit|))
    ensures DisciplinedCalls(calls, |s.explicit|) ==> LastEnded(RunSql(s, calls, fails), s.next, !fails)
    decreases calls, 1
  {
    SqlStart(s);
    var s1 := Begin(s).(ctx := s.ctx);
    CallsOutcome(s1, calls);
    var s2 := RunCalls(s1, calls);
    hide Fresh, RunCalls, DisciplinedCalls, AtStart;
    if DisciplinedCalls(calls, |s.explicit|) {
      EndOfSql(s, s2, fails);
    } else {
      assert s2.mismatch;
    }
  }

  lemma EndOfSql(s: State, s2: State, fails: bool)
    requires s2.subs == s.subs + [s.next] && s2.explicit == s.explicit && Fresh(s2)
    ensures var s3 := End(s2, s.next, !fails).(ctx := s.ctx, owner := s.owner);
            Same(s, s3) && s3.mismatch == s2.mismatch && Fresh(s3) && LastEnded(s3, s.next, !fails)
  {
    EndIsFresh(s2, s.next, !fails);
    FreshIgnores(End(s2, s.next, !fails), s.ctx, s.owner);
    hide Fresh;
    assert s2.subs[..|s.subs|] == s.subs;
  }

  lemma SqlStart(s: State)
    requires Fresh(s)
    ensures AtStart(Begin(s).(ctx := s.ctx))
  {
    BeginIsFresh(s);
  }

  /** Context and owner have no part in it. */
  lemma FreshIgnores(s: State, ctx: int, owner: int)
    requires Fresh(s)
    ensures Fresh(s.(ctx := ctx, owner := owner))
  {
  }

  lemma {:induction false} CallsOutcome(s: State, calls: seq<Call>)
    requires AtStart(s)
    ensures Outcome(s, RunCalls(s, calls), DisciplinedCalls(calls, |s.explicit|))
    decreases calls, 0
  {
    if calls != [] {
      CallOutcome(s, calls[0]);
      var s1 := RunCall(s, calls[0]);
      if Disciplined(calls[0], |s.explicit|) {
        CallsOutcome(s1, calls[1..]);
      } else {
        CallsKeepMismatch(s1, calls[1..]);
      }
    }
  }

  const START: State := State([], 0, 0, [], [], 0, false)

  /** Over all call trees: every release and rollback hits the subtransaction it was meant for if
      and only if each call exits only what it entered (or nothing is open at all); and then each
      call, ending normally or by an error, leaves nesting, records, context and owner as it
      found them. */
  lemma OneStackDiscipline(s: State, c: Call)
    requires AtStart(s) && !s.mismatch
    ensures !RunCall(s, c).mismatch <==> Disciplined(c, |s.explicit|)
    ensures Disciplined(c, |s.explicit|) ==> Same(s, RunCall(s, c))
  {
    CallOutcome(s, c);
  }

  /** Whatever a disciplined call began, explicitly or through its SQL, has ended exactly once
      when the call is over, however it ended. */
  lemma NothingLeftOpen(s: State, c: Call, id: nat)
    requires AtStart(s) && Disciplined(c, |s.explicit|)
    requires s.next <= id < RunCall(s, c).next
    ensures multiset(Ids(RunCall(s, c).log))[id] == 1
  {
    CallOutcome(s, c);
    assert id !in s.subs;
  }

  /** Subtransactions that a call leaves open are rolled back, innermost first. */
  lemma {:induction false} AbortRollsBack(base: State, s: State, k: nat)
    requires Opened(base, s, k)
    ensures var s' := AbortOpen(s, |base.explicit|);
            && |s'.log| == |s.log| + k && k <= |s.explicit|
            && s.log <= s'.log
            && forall i | 0 <= i < k :: s'.log[|s.log| + i] == Ended(s.explicit[i].sub, false)
    decreases k
  {
    OpenedFrom(base, s, s, k);
    if k > 0 {
      AbortRollsBack(base, Close(s, false), k - 1);
    }
  }

  // ------------------------------------------------------------- with blocks

  /** Client code that uses subtransactions only as context managers (PEP 343): a block enters,
      runs its body and exits, committing unless there was an exception; a query makes calls,
      which are code of the same kind. */
  datatype Code = Code(blocks: seq<Block>)
  datatype Block = With(body: seq<Block>, commit: bool) | Query(calls: seq<Code>, fails: bool)

  function EventsOf(blocks: seq<Block>): seq<Event>
    decreases blocks, 0
  {
    if blocks == [] then [] else EventsOfBlock(blocks[0]) + EventsOf(blocks[1..])
  }

  function EventsOfBlock(b: Block): seq<Event>
    decreases b, 1
  {
    match b
    case With(body, commit) => [Entering] + (EventsOf(body) + [Exiting(commit)])
    case Query(calls, fails) => [Sql(CallsOf(calls), fails)]
  }

  function CallsOf(codes: seq<Code>): seq<Call>
    decreases codes, 0
  {
    if codes == [] then [] else [Call(EventsOf(codes[0].blocks))] + CallsOf(codes[1..])
  }

  lemma {:induction false} BlocksAreDisciplined(blocks: seq<Block>, rest: seq<Event>, own: nat, outer: nat)
    requires DisciplinedEvents(rest, own, outer)
    ensures DisciplinedEvents(EventsOf(blocks) + rest, own, outer)
    decreases blocks, 0
  {
    if blocks == [] {
      assert EventsOf(blocks) + rest == rest;
    } else {
      var more := EventsOf(blocks[1..]) + rest;
      BlocksAreDisciplined(blocks[1..], rest, own, outer);
      BlockIsDisciplined(blocks[0], more, own, outer);
      assert EventsOf(blocks) + rest == EventsOfBlock(blocks[0]) + more;
    }
  }

  lemma {:induction false} BlockIsDisciplined(b: Block, rest: seq<Event>, own: nat, outer: nat)
    requires DisciplinedEvents(rest, own, outer)
    ensures DisciplinedEvents(EventsOfBlock(b) + rest, own, outer)
    decreases b, 1
  {
    var events := EventsOfBlock(b) + rest;
    match b
    case With(body, commit) =>
      var inner := [Exiting(commit)] + rest;
      assert inner[1..] == rest;
      assert DisciplinedEvents(inner, own + 1, outer);
      BlocksAreDisciplined(body, inner, own + 1, outer);
      assert events == [Entering] + (EventsOf(body) + inner);
      assert events[1..] == EventsOf(body) + inner;
    case Query(calls, fails) =>
      CodesAreDisciplined(calls, own + outer);
      assert events[1..] == rest;
  }

  lemma {:induction false} CodesAreDisciplined(codes: seq<Code>, outer: nat)
    ensures DisciplinedCalls(CallsOf(codes), outer)
    decreases codes, 0
  {
    if codes != [] {
      BlocksAreDisciplined(codes[0].blocks, [], 0, outer);
      assert EventsOf(codes[0].blocks) + [] == EventsOf(codes[0].blocks);
      CodesAreDisciplined(codes[1..], outer);
      assert CallsOf(codes)[1..] == CallsOf(codes[1..]);
    }
  }

  /** What with-blocks and queries do, told without a stack: the subtransactions that end, in order, the
      next number, and whether a failed query ended the call. */
  datatype Story = Story(log: seq<Ended>, next: nat, stopped: bool)

  function StoryOf(blocks: seq<Block>, next: nat): Story
    decreases blocks, 0
  {
    if blocks == [] then Story([], next, false)
    else
      var first := StoryOfBlock(blocks[0], next);
      if first.stopped then first
      else
        var rest := StoryOf(blocks[1..], first.next);
        Story(first.log + rest.log, rest.next, rest.stopped)
  }

  /** A block commits if it was left without exception and no failed query ended the call inside it;
      a query commits if it did not fail. */
  function StoryOfBlock(b: Block, next: nat): Story
    decreases b, 1
  {
    match b
    case With(body, commit) =>
      var inner := StoryOf(body, next + 1);
      Story(inner.log + [Ended(next, commit && !inner.stopped)], inner.next, inner.stopped)
    case Query(calls, fails) =>
      var inner := StoryOfCalls(calls, next + 1);
      Story(inner.log + [Ended(next, !fails)], inner.next, fails)
  }

  function StoryOfCalls(codes: seq<Code>, next: nat): Story
    decreases codes, 0
  {
    if codes == [] then Story([], next, false)
    else
      var first := StoryOf(codes[0].blocks, next);
      var rest := StoryOfCalls(codes[1..], first.next);
      Story(first.log + rest.log, rest.next, false)
  }

  /** Nothing is changed but what the story tells. */
  function After(s: State, story: Story): State {
    s.(log := s.log + story.log, next := story.next)
  }

  lemma AfterTwice(s: State, a: Story, b: Story)
    ensures After(After(s, a), b) == After(s, Story(a.log + b.log, b.next, b.stopped))
  {
    assert s.log + a.log + b.log == s.log + (a.log + b.log);
  }

  lemma {:induction false} AbortInTwo(s: State, outer: nat, inner: nat)
    requires outer <= inner
    ensures AbortOpen(AbortOpen(s, inner), outer) == AbortOpen(s, outer)
    decreases |s.explicit|
  {
    if |s.explicit| > inner {
      AbortInTwo(Close(s, false), outer, inner);
    }
  }

  /** Leaving a block after whatever happened inside it. */
  lemma CloseAfter(s: State, inner: Story, commit: bool)
    ensures After(Enter(s), inner).explicit != []
    ensures Close(After(Enter(s), inner), commit)
            == After(s, Story(inner.log + [Ended(s.next, commit)], inner.next, inner.stopped))
  {
    var s1 := After(Enter(s), inner);
    assert s1.subs[..|s.subs|] == s.subs && s1.explicit[1..] == s.explicit;
    assert s.log + inner.log + [Ended(s.next, commit)] == s.log + (inner.log + [Ended(s.next, commit)]);
  }

  /** The blocks at the head of some events. */
  ghost predicate RunAsTold(s: State, events: seq<Event>, rest: seq<Event>, story: Story) {
    if story.stopped then AbortOpen(RunEvents(s, events + rest), |s.explicit|) == After(s, story)
    else RunEvents(s, events + rest) == RunEvents(After(s, story), rest)
  }

  lemma {:induction false} BlocksAsTold(s: State, blocks: seq<Block>, rest: seq<Event>)
    ensures RunAsTold(s, EventsOf(blocks), rest, StoryOf(blocks, s.next))
    decreases blocks, 0
  {
    if blocks == [] {
      assert EventsOf(blocks) + rest == rest;
      assert s.log + [] == s.log;
    } else {
      var more := EventsOf(blocks[1..]) + rest;
      var first := StoryOfBlock(blocks[0], s.next);
      BlockAsTold(s, blocks[0], more);
      assert EventsOf(blocks) + rest == EventsOfBlock(blocks[0]) + more;
      if !first.stopped {
        BlocksAsTold(After(s, first), blocks[1..], rest);
        AfterTwice(s, first, StoryOf(blocks[1..], first.next));
      }
    }
  }

  lemma {:induction false} BlockAsTold(s: State, b: Block, rest: seq<Event>)
    ensures RunAsTold(s, EventsOfBlock(b), rest, StoryOfBlock(b, s.next))
    decreases b, 1
  {
    match b
    case With(body, commit) =>
      var inner := StoryOf(body, s.next + 1);
      BlocksAsTold(Enter(s), body, [Exiting(commit)] + rest);
      WithAsTold(s, body, commit, rest, inner);
    case Query(calls, fails) =>
      CallsAsTold(Begin(s).(ctx := s.ctx), calls);
      QueryAsTold(s, calls, fails, rest);
  }

  lemma WithAsTold(s: State, body: seq<Block>, commit: bool, rest: seq<Event>, inner: Story)
    requires RunAsTold(Enter(s), EventsOf(body), [Exiting(commit)] + rest, inner)
    ensures RunAsTold(s, EventsOfBlock(With(body, commit)), rest,
                      Story(inner.log + [Ended(s.next, commit && !inner.stopped)], inner.next, inner.stopped))
  {
    hide StoryOf;
    var events := EventsOfBlock(With(body, commit)) + rest;
    assert events == [Entering] + (EventsOf(body) + ([Exiting(commit)] + rest));
    assert events[1..] == EventsOf(body) + ([Exiting(commit)] + rest);
    assert RunEvents(s, events) == RunEvents(Enter(s), events[1..]);
    CloseAfter(s, inner, commit && !inner.stopped);
    if inner.stopped {
      AbortInTwo(RunEvents(s, events), |s.explicit|, |s.explicit| + 1);
      var s1 := After(Enter(s), inner);
      assert AbortOpen(s1, |s.explicit|) == AbortOpen(Close(s1, false), |s.explicit|);
    } else {
      assert ([Exiting(commit)] + rest)[1..] == rest;
    }
  }

  lemma QueryAsTold(s: State, calls: seq<Code>, fails: bool, rest: seq<Event>)
    requires var s1 := Begin(s).(ctx := s.ctx);
             RunCalls(s1, CallsOf(calls)) == After(s1, StoryOfCalls(calls, s.next + 1))
    ensures RunAsTold(s, EventsOfBlock(Query(calls, fails)), rest, StoryOfBlock(Query(calls, fails), s.next))
  {
    var inner := StoryOfCalls(calls, s.next + 1);
    var events := EventsOfBlock(Query(calls, fails)) + rest;
    assert events[1..] == rest && events[0] == Sql(CallsOf(calls), fails);
    var s2 := RunSql(s, CallsOf(calls), fails);
    assert (s.subs + [s.next])[..|s.subs|] == s.subs;
    assert s.log + inner.log + [Ended(s.next, !fails)] == s.log + (inner.log + [Ended(s.next, !fails)]);
    assert s2 == After(s, StoryOfBlock(Query(calls, fails), s.next));
  }

  lemma {:induction false} CallsAsTold(s: State, codes: seq<Code>)
    ensures RunCalls(s, CallsOf(codes)) == After(s, StoryOfCalls(codes, s.next))
    decreases codes, 0
  {
    if codes == [] {
      assert s.log + [] == s.log;
    } else {
      var first := StoryOf(codes[0].blocks, s.next);
      CodeAsTold(s, codes[0]);
      assert CallsOf(codes)[1..] == CallsOf(codes[1..]);
      CallsAsTold(After(s, first), codes[1..]);
      AfterTwice(s, first, StoryOfCalls(codes[1..], first.next));
    }
  }

  /** A call made of with-blocks and queries does what its story tells and nothing else: each block is
      released or rolled back, in order, as it was left, each query as it ended. */
  lemma {:induction false} CodeAsTold(s: State, code: Code)
    ensures RunCall(s, Call(EventsOf(code.blocks))) == After(s, StoryOf(code.blocks, s.next))
    decreases code, 1
  {
    BlocksAsTold(s, code.blocks, []);
    assert EventsOf(code.blocks) + [] == EventsOf(code.blocks);
  }

  /** So `with` blocks, nested and failing in any way, never disturb an enclosing call, and commit as they
      were left. */
  lemma WithBlocksRestore(s: State, code: Code)
    requires AtStart(s) && !s.mismatch
    ensures Disciplined(Call(EventsOf(code.blocks)), |s.explicit|)
    ensures var s' := RunCall(s, Call(EventsOf(code.blocks)));
            Same(s, s') && !s'.mismatch && s'.log == s.log + StoryOf(code.blocks, s.next).log
  {
    BlocksAreDisciplined(code.blocks, [], 0, |s.explicit|);
    assert EventsOf(code.blocks) + [] == EventsOf(code.blocks);
    CodeAsTold(s, code);
  }

  /** The shortest undisciplined code: a function called under an open subtransaction exits it. */
  lemma ForeignExitMismatches()
    ensures RunCall(START, Call([Entering, Sql([Call([Exiting(true)])], false)])).mismatch
  {
    var c := Call([Entering, Sql([Call([Exiting(true)])], false)]);
    assert [Entering, Sql([Call([Exiting(true)])], false)][1..] == [Sql([Call([Exiting(true)])], false)];
    assert !Disciplined(Call([Exiting(true)]), 1);
    assert !DisciplinedCalls([Call([Exiting(true)])], 1);
    assert !DisciplinedEvents([Sql([Call([Exiting(true)])], false)], 1, 0);
    assert !Disciplined(c, 0);
    OneStackDiscipline(START, c);
  }

  // -------------------------------------------------------- the global state

  const NO_SUBTRANSACTION_ERROR: int := 0
  const CREATE_SUBTRANSACTION_ERROR: int := 1
  const RELEASE_SUBTRANSACTION_ERROR: int := 2
  const SUCCESS: int := 3

  class Handler {
    var subs: seq<nat>
    var ctx: int
    var owner: int
    var explicit: seq<Saved>
    ghost var log: seq<Ended>
    ghost var next: nat
    ghost var mismatch: bool

    ghost function View(): State
      reads this
    {
      State(subs, ctx, owner, explicit, log, next, mismatch)
    }

    constructor ()
      ensures View() == START
    {
      subs, ctx, owner, explicit, log, next, mismatch := [], 0, 0, [], [], 0, false;
    }

    /** The number of the subtransaction that is begun is the transaction manager's choice. */
    method BeginSub(id: nat)
      requires id == next
      modifies this
      ensures View() == Begin(old(View()))
    {
      subs, ctx, owner, next := subs + [id], id, id, next + 1;
    }

    method EndSub(ghost meant: nat, commit: bool)
      requires subs != []
      modifies this
      ensures View() == End(old(View()), meant, commit)
    {
      log := log + [Ended(subs[|subs| - 1], commit)];
      mismatch := mismatch || subs[|subs| - 1] != meant;
      subs := subs[..|subs| - 1];
      ctx := if subs == [] then -1 else subs[|subs| - 1];
      owner := ctx;
    }

    method EnterSub(id: nat, begins: bool) returns (result: int)
      requires id == next
      modifies this
      ensures result == if begins then SUCCESS else CREATE_SUBTRANSACTION_ERROR
      ensures View() == if begins then Enter(old(View())) else old(View())
    {
      if !begins {
        return CREATE_SUBTRANSACTION_ERROR;
      }
      var saved := Saved(id, ctx, owner);
      BeginSub(id);
      ctx := saved.ctx;
      explicit := [saved] + explicit;
      return SUCCESS;
    }

    /** Type 'e' says that there was no exception; anything else rolls back. */
    method ExitSub(kind: char, releases: bool) returns (result: int)
      requires explicit != [] ==> subs != []
      modifies this
      ensures old(explicit) == [] ==> result == NO_SUBTRANSACTION_ERROR && View() == old(View())
      ensures old(explicit) != [] ==>
                if releases then result == SUCCESS && View() == Exit(old(View()), kind == 'e')
                else result == RELEASE_SUBTRANSACTION_ERROR && View() == old(View())
    {
      if explicit == [] {
        return NO_SUBTRANSACTION_ERROR;
      }
      if !releases {
        return RELEASE_SUBTRANSACTION_ERROR;
      }
      var saved := explicit[0];
      if kind != 'e' {
        EndSub(saved.sub, false);
      } else {
        EndSub(saved.sub, true);
      }
      explicit := explicit[1..];
      ctx, owner := saved.ctx, saved.owner;
      return SUCCESS;
    }

    method AbortOpenSubs(level: nat)
      requires |explicit| <= |subs|
      modifies this
      ensures View() == AbortOpen(old(View()), level)
    {
      while |explicit| > level
        invariant |explicit| <= |subs|
        invariant AbortOpen(View(), level) == AbortOpen(old(View()), level)
        decreases |explicit|
      {
        var saved := explicit[0];
        EndSub(saved.sub, false);
        explicit := explicit[1..];
        ctx, owner := saved.ctx, saved.owner;
      }
    }
  }
}
