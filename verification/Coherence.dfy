/** The client runs the function the catalog has now.

    The database side caches what it read from the catalog, each container caches what it compiled,
    and one `hasChanged` bit in the call request is all that ties the two together
    (src/message_fns.c, src/pyclient/pycall.c).  A version stands for one state of a function's
    catalog row: for its source text, its name, and the container that runs it.

    A container's cache does not own the function objects. They live in the dictionary of its main
    module under the function's bare name, and the next function of that name releases them. */
module Coherence {
  import opened Basics
  import opened LruCache

  type Functions = seq<Entry<nat>>

  type Names = map<nat, Entry<nat>>

  /** The container and the name of each version. */
  datatype Env = Env(runtime: nat -> nat, name: nat -> nat)

  /** The catalog's current version of each function, the cache of the database side, the cache and
      the name dictionary of each container, and the next unused version. */
  datatype State = State(
    catalog: map<nat, nat>, qe: Functions, clients: map<nat, Functions>, dicts: map<nat, Names>, next: nat)

  /** How far a call gets: it fails before the client sees it, it fails after the client has
      looked in its cache but before it has cached a compiled function, or neither. */
  datatype Outcome = Lost | NotCompiled | Reached

  /** A set-returning function is looked up again for every row, but only the first row sends a
      request: later rows are row steps. */
  datatype Action =
    | Alter(oid: nat)
    | Call(oid: nat, typesValid: bool, outcome: Outcome)
    | RowStep(oid: nat, typesValid: bool)
    | Restart(container: nat)

  function Client(s: State, container: nat): Functions {
    if container in s.clients then s.clients[container] else []
  }

  function Dict(s: State, container: nat): Names {
    if container in s.dicts then s.dicts[container] else map[]
  }

  /** The object of this version is the one its name stands for, and so it still exists. */
  predicate Bound(names: Names, env: Env, oid: nat, v: nat) {
    env.name(v) in names && names[env.name(v)] == Entry(oid, v)
  }

  predicate Enabled(s: State, a: Action) {
    a.Call? || a.RowStep? ==> a.oid in s.catalog
  }

  /** The cached entry is rebuilt unless it is there, its catalog row is unchanged, and so are
      the composite types it uses. */
  predicate Rebuilds(s: State, oid: nat, typesValid: bool)
    requires oid in s.catalog
  {
    !(Lookup(s.qe, oid) == Some(s.catalog[oid]) && typesValid)
  }

  /** The version in the request: what the entry holds once it is rebuilt or found valid. */
  function Requested(s: State, oid: nat, typesValid: bool): nat
    requires oid in s.catalog
  {
    if Rebuilds(s, oid, typesValid) then s.catalog[oid] else Lookup(s.qe, oid).value
  }

  function AfterProcedureGet(s: State, oid: nat, typesValid: bool): Functions
    requires oid in s.catalog && |s.qe| <= QE_CACHE_SIZE
  {
    if Rebuilds(s, oid, typesValid) then AfterPut(s.qe, QE_CACHE_SIZE, Entry(oid, s.catalog[oid]))
    else AfterGet(s.qe, oid)
  }

  /** handle_call: compile unless the function is cached and the request says it has not changed. */
  predicate Compiles(cache: Functions, oid: nat, hasChanged: bool) {
    Lookup(cache, oid).None? || hasChanged
  }

  /** The version that the client executes. */
  function Executed(cache: Functions, oid: nat, hasChanged: bool, requested: nat): nat {
    if Compiles(cache, oid, hasChanged) then requested else Lookup(cache, oid).value
  }

  function AfterHandleCall(cache: Functions, oid: nat, hasChanged: bool, requested: nat, outcome: Outcome): Functions
    requires |cache| <= CLIENT_CACHE_SIZE
  {
    if outcome.Lost? then cache
    else if Compiles(cache, oid, hasChanged) && outcome.Reached? then
      AfterPut(cache, CLIENT_CACHE_SIZE, Entry(oid, requested))
    else AfterGet(cache, oid)
  }

  /** A successful compilation puts the function object under its name. */
  function AfterCompile(names: Names, env: Env, cache: Functions, oid: nat, hasChanged: bool, requested: nat,
                        outcome: Outcome): Names
  {
    if outcome.Reached? && Compiles(cache, oid, hasChanged) then names[env.name(requested) := Entry(oid, requested)]
    else names
  }

  ghost predicate Bounded(s: State) {
    && |s.qe| <= QE_CACHE_SIZE && DistinctKeys(s.qe)
    && (forall oid | oid in s.catalog :: s.catalog[oid] < s.next)
    && (forall oid | Lookup(s.qe, oid).Some? :: Lookup(s.qe, oid).value < s.next)
    && forall c :: |Client(s, c)| <= CLIENT_CACHE_SIZE && DistinctKeys(Client(s, c))
  }

  ghost function Step(s: State, env: Env, a: Action): State
    requires Bounded(s) && Enabled(s, a)
  {
    match a
    case Alter(oid) => s.(catalog := s.catalog[oid := s.next], next := s.next + 1)
    case Restart(c) => s.(clients := s.clients - {c}, dicts := s.dicts - {c})
    case RowStep(oid, typesValid) => s.(qe := AfterProcedureGet(s, oid, typesValid))
    case Call(oid, typesValid, outcome) =>
      var v := Requested(s, oid, typesValid);
      var changed := Rebuilds(s, oid, typesValid);
      var c := env.runtime(v);
      s.(qe := AfterProcedureGet(s, oid, typesValid),
         clients := s.clients[c := AfterHandleCall(Client(s, c), oid, changed, v, outcome)],
         dicts := s.dicts[c := AfterCompile(Dict(s, c), env, Client(s, c), oid, changed, v, outcome)])
  }

  /** A function whose entry is valid on the database side is in no container's cache with another
      version, nor with an object that is gone. */
  ghost predicate Coherent(s: State, env: Env) {
    forall oid :: Agrees(s, env, oid)
  }

  predicate Agrees(s: State, env: Env, oid: nat) {
    oid in s.catalog && Lookup(s.qe, oid) == Some(s.catalog[oid]) ==> !Unusable(s, env, oid)
  }

  /** The container that runs the catalog's version has the function cached, but with an older version
      or with an object that it has released. */
  predicate Unusable(s: State, env: Env, oid: nat)
    requires oid in s.catalog
  {
    var v := s.catalog[oid];
    var cached := Lookup(Client(s, env.runtime(v)), oid);
    cached.Some? && !(cached.value == v && Bound(Dict(s, env.runtime(v)), env, oid, v))
  }

  ghost predicate Inv(s: State, env: Env) {
    Bounded(s) && Coherent(s, env)
  }

  lemma QeAfterCall(s: State, oid: nat, typesValid: bool, other: nat)
    requires Bounded(s) && oid in s.catalog
    ensures Lookup(AfterProcedureGet(s, oid, typesValid), oid) == Some(s.catalog[oid])
    ensures other != oid ==> Lookup(AfterProcedureGet(s, oid, typesValid), other) in {None, Lookup(s.qe, other)}
  {
    LookupAfterGet(s.qe, oid, oid);
    LookupAfterGet(s.qe, oid, other);
    LookupAfterPut(s.qe, QE_CACHE_SIZE, Entry(oid, s.catalog[oid]), other);
  }

  lemma QeBounded(s: State, oid: nat, typesValid: bool)
    requires Bounded(s) && oid in s.catalog
    ensures var qe := AfterProcedureGet(s, oid, typesValid);
            && |qe| <= QE_CACHE_SIZE && DistinctKeys(qe)
            && forall other | Lookup(qe, other).Some? :: Lookup(qe, other).value < s.next
  {
    LookupAfterGet(s.qe, oid, oid);
    LookupAfterPut(s.qe, QE_CACHE_SIZE, Entry(oid, s.catalog[oid]), oid);
    var qe := AfterProcedureGet(s, oid, typesValid);
    forall other | Lookup(qe, other).Some? ensures Lookup(qe, other).value < s.next {
      QeAfterCall(s, oid, typesValid, other);
    }
  }

  lemma ClientBounded(cache: Functions, oid: nat, changed: bool, v: nat, outcome: Outcome)
    requires |cache| <= CLIENT_CACHE_SIZE && DistinctKeys(cache)
    ensures var cache' := AfterHandleCall(cache, oid, changed, v, outcome);
            |cache'| <= CLIENT_CACHE_SIZE && DistinctKeys(cache')
  {
    LookupAfterGet(cache, oid, oid);
    LookupAfterPut(cache, CLIENT_CACHE_SIZE, Entry(oid, v), oid);
  }

  lemma StepKeepsBounds(s: State, env: Env, a: Action)
    requires Bounded(s) && Enabled(s, a)
    ensures Bounded(Step(s, env, a))
  {
    if a.Call? {
      var v := Requested(s, a.oid, a.typesValid);
      QeBounded(s, a.oid, a.typesValid);
      ClientBounded(Client(s, env.runtime(v)), a.oid, Rebuilds(s, a.oid, a.typesValid), v, a.outcome);
      hide AfterProcedureGet, AfterHandleCall, AfterCompile, Lookup, Rebuilds, Requested;
      assert forall c | c != env.runtime(v) :: Client(Step(s, env, a), c) == Client(s, c);
    } else {
      assert forall c :: Client(Step(s, env, a), c) in {[], Client(s, c)};
      if a.RowStep? {
        QeBounded(s, a.oid, a.typesValid);
      }
    }
  }

  lemma ClientAfterCall(cache: Functions, oid: nat, changed: bool, v: nat, outcome: Outcome)
    requires |cache| <= CLIENT_CACHE_SIZE && DistinctKeys(cache)
    ensures Lookup(AfterHandleCall(cache, oid, changed, v, outcome), oid)
            == if Compiles(cache, oid, changed) && outcome.Reached? then Some(v) else Lookup(cache, oid)
  {
    LookupAfterGet(cache, oid, oid);
    LookupAfterPut(cache, CLIENT_CACHE_SIZE, Entry(oid, v), oid);
  }

  lemma OthersAfterCall(cache: Functions, oid: nat, changed: bool, v: nat, outcome: Outcome, other: nat)
    requires |cache| <= CLIENT_CACHE_SIZE && DistinctKeys(cache) && other != oid
    ensures Lookup(AfterHandleCall(cache, oid, changed, v, outcome), other) in {None, Lookup(cache, other)}
  {
    LookupAfterGet(cache, oid, other);
    LookupAfterPut(cache, CLIENT_CACHE_SIZE, Entry(oid, v), other);
  }

  /** A lookup that rebuilds the entry and whose request, if any, does not get to the client's cache. */
  predicate Unreached(s: State, a: Action)
    requires Enabled(s, a)
  {
    && (a.RowStep? || (a.Call? && !a.outcome.Reached?))
    && Rebuilds(s, a.oid, a.typesValid)
  }

  /** The call compiles a namesake of a function that the same container has cached and whose entry is
      valid; both entries survive the call. */
  predicate Releases(s: State, env: Env, a: Action, oid: nat)
    requires Enabled(s, a) && (a.Call? ==> |s.qe| <= QE_CACHE_SIZE)
    requires a.Call? ==> |Client(s, env.runtime(Requested(s, a.oid, a.typesValid)))| <= CLIENT_CACHE_SIZE
  {
    a.Call? && a.outcome.Reached? && a.oid != oid && oid in s.catalog &&
    var v, w := Requested(s, a.oid, a.typesValid), s.catalog[oid];
    var cache, changed := Client(s, env.runtime(v)), Rebuilds(s, a.oid, a.typesValid);
    && Compiles(cache, a.oid, changed) && env.runtime(w) == env.runtime(v) && env.name(w) == env.name(v)
    && Lookup(AfterProcedureGet(s, a.oid, a.typesValid), oid) == Some(w)
    && Lookup(AfterHandleCall(cache, a.oid, changed, v, a.outcome), oid).Some?
  }

  /** The premise: no entry is rebuilt without reaching the client while what the container has cached
      is unusable, and no namesake of a function in use is compiled in its container. */
  ghost predicate Safe(s: State, env: Env, a: Action)
    requires Bounded(s) && Enabled(s, a)
  {
    && !((a.Call? || a.RowStep?) && Unreached(s, a) && Unusable(s, env, a.oid))
    && forall oid :: !Releases(s, env, a, oid)
  }

  /** The two ways to lose agreement about a function, in any run: its entry is rebuilt without reaching
      the client, while the container holds something unusable; or another function of its name is
      compiled in its container. */
  lemma StopsAgreeing(s: State, env: Env, a: Action, oid: nat)
    requires Bounded(s) && Enabled(s, a) && Agrees(s, env, oid)
    ensures !Agrees(Step(s, env, a), env, oid)
            <==> || ((a.Call? || a.RowStep?) && a.oid == oid && Unreached(s, a) && Unusable(s, env, oid))
                 || Releases(s, env, a, oid)
  {
    if a.RowStep? {
      QeAfterCall(s, a.oid, a.typesValid, oid);
    } else if a.Call? && a.oid == oid {
      OwnCallStopsAgreeing(s, env, a);
    } else if a.Call? {
      OtherCallStopsAgreeing(s, env, a, oid);
    } else if a.Alter? {
      assert Lookup(s.qe, oid) != Some(s.next);
    }
  }

  lemma OwnCallStopsAgreeing(s: State, env: Env, a: Action)
    requires Bounded(s) && a.Call? && Enabled(s, a) && Agrees(s, env, a.oid)
    ensures !Agrees(Step(s, env, a), env, a.oid) <==> Unreached(s, a) && Unusable(s, env, a.oid)
  {
    var v := Requested(s, a.oid, a.typesValid);
    var changed := Rebuilds(s, a.oid, a.typesValid);
    QeAfterCall(s, a.oid, a.typesValid, a.oid);
    ClientAfterCall(Client(s, env.runtime(v)), a.oid, changed, v, a.outcome);
    hide AfterProcedureGet, AfterHandleCall, Lookup;
  }

  lemma OtherCallStopsAgreeing(s: State, env: Env, a: Action, oid: nat)
    requires Bounded(s) && a.Call? && Enabled(s, a) && Agrees(s, env, oid) && oid != a.oid
    ensures !Agrees(Step(s, env, a), env, oid) <==> Releases(s, env, a, oid)
  {
    QeAfterCall(s, a.oid, a.typesValid, oid);
    if oid in s.catalog && Lookup(AfterProcedureGet(s, a.oid, a.typesValid), oid) == Some(s.catalog[oid]) {
      if env.runtime(s.catalog[oid]) == env.runtime(Requested(s, a.oid, a.typesValid)) {
        CallMakesUnusable(s, env, a, oid);
      } else {
        ElsewhereUsable(s, env, a, oid);
      }
      hide Unusable;
    }
    hide AfterProcedureGet, AfterHandleCall, Lookup;
  }

  lemma ElsewhereUsable(s: State, env: Env, a: Action, oid: nat)
    requires Bounded(s) && a.Call? && Enabled(s, a) && oid in s.catalog && !Unusable(s, env, oid)
    requires env.runtime(s.catalog[oid]) != env.runtime(Requested(s, a.oid, a.typesValid))
    ensures !Unusable(Step(s, env, a), env, oid)
  {
    var c, s' := env.runtime(s.catalog[oid]), Step(s, env, a);
    assert Client(s', c) == Client(s, c) && Dict(s', c) == Dict(s, c);
    hide AfterProcedureGet, AfterHandleCall, AfterCompile, Lookup, Rebuilds, Requested;
  }

  lemma CallMakesUnusable(s: State, env: Env, a: Action, oid: nat)
    requires Bounded(s) && a.Call? && Enabled(s, a) && oid != a.oid && oid in s.catalog && !Unusable(s, env, oid)
    requires env.runtime(s.catalog[oid]) == env.runtime(Requested(s, a.oid, a.typesValid))
    requires Lookup(AfterProcedureGet(s, a.oid, a.typesValid), oid) == Some(s.catalog[oid])
    ensures Unusable(Step(s, env, a), env, oid) <==> Releases(s, env, a, oid)
  {
    var v := Requested(s, a.oid, a.typesValid);
    var c, changed := env.runtime(v), Rebuilds(s, a.oid, a.typesValid);
    var cache, s' := Client(s, c), Step(s, env, a);
    OthersAfterCall(cache, a.oid, changed, v, a.outcome, oid);
    assert Client(s', c) == AfterHandleCall(cache, a.oid, changed, v, a.outcome);
    assert Dict(s', c) == AfterCompile(Dict(s, c), env, cache, a.oid, changed, v, a.outcome);
    assert s'.catalog == s.catalog;
    hide Step, AfterProcedureGet, AfterHandleCall, Lookup, Rebuilds, Requested, Client, Dict;
  }

  lemma StepKeeps(s: State, env: Env, a: Action)
    requires Inv(s, env) && Enabled(s, a) && Safe(s, env, a)
    ensures Inv(Step(s, env, a), env)
  {
    StepKeepsBounds(s, env, a);
    forall oid ensures Agrees(Step(s, env, a), env, oid) {
      assert Agrees(s, env, oid);
      StopsAgreeing(s, env, a, oid);
    }
  }

  /** A call made now would execute the catalog's version, in an object that exists. */
  predicate Current(s: State, env: Env, oid: nat, typesValid: bool)
    requires oid in s.catalog
  {
    var v := Requested(s, oid, typesValid);
    var c := env.runtime(v);
    var changed := Rebuilds(s, oid, typesValid);
    && Executed(Client(s, c), oid, changed, v) == s.catalog[oid]
    && (Compiles(Client(s, c), oid, changed) || Bound(Dict(s, c), env, oid, s.catalog[oid]))
  }

  /** In any state, however it was reached, a call runs the catalog's version exactly when it rebuilds
      its entry or the two caches agree about the function. */
  lemma CurrentIff(s: State, env: Env, oid: nat, typesValid: bool)
    requires oid in s.catalog
    ensures Current(s, env, oid, typesValid) <==> Rebuilds(s, oid, typesValid) || Agrees(s, env, oid)
  {
  }

  /** Whatever the caches hold, a call whose composite types have changed runs the catalog's version; and
      once it has reached the client, that version is cached there and its object exists. */
  lemma ChangedTypesRebuild(s: State, env: Env, oid: nat)
    requires Bounded(s) && oid in s.catalog
    ensures Current(s, env, oid, false)
    ensures var v, s' := s.catalog[oid], Step(s, env, Call(oid, false, Reached));
            && Lookup(Client(s', env.runtime(v)), oid) == Some(v)
            && Bound(Dict(s', env.runtime(v)), env, oid, v)
  {
    CurrentIff(s, env, oid, false);
    ClientAfterCall(Client(s, env.runtime(s.catalog[oid])), oid, true, s.catalog[oid], Reached);
    hide AfterProcedureGet, AfterHandleCall, Lookup;
  }

  /** A called function becomes the most recent one on both sides, with the catalog's version in the
      backend, whether or not it compiles; a call that gets lost leaves the client's cache alone. */
  lemma CalledComesFirst(s: State, env: Env, oid: nat, typesValid: bool, outcome: Outcome)
    requires Bounded(s) && oid in s.catalog
    ensures var s', c := Step(s, env, Call(oid, typesValid, outcome)), env.runtime(s.catalog[oid]);
            && s'.qe != [] && s'.qe[0] == Entry(oid, s.catalog[oid])
            && (outcome.Lost? ==> Client(s', c) == Client(s, c))
            && (!outcome.Lost? && Lookup(Client(s', c), oid).Some? ==> Client(s', c)[0].key == oid)
  {
    var cache := Client(s, env.runtime(s.catalog[oid]));
    ClientAfterCall(cache, oid, Rebuilds(s, oid, typesValid), s.catalog[oid], outcome);
    FoundAt(s.qe, oid);
    FoundAt(cache, oid);
  }

  lemma FoundAt(cache: Functions, oid: nat)
    ensures Lookup(cache, oid).Some? ==> Find(cache, oid) < |cache| && cache[Find(cache, oid)].key == oid
    ensures Lookup(cache, oid).Some? ==> cache[Find(cache, oid)] == Entry(oid, Lookup(cache, oid).value)
  {
  }

  /** A container that starts anew has nothing cached, so calls that run in it are current whatever went
      before; those that run elsewhere are as they were. */
  lemma AfterRestart(s: State, env: Env, c: nat, oid: nat, typesValid: bool)
    requires Bounded(s) && oid in s.catalog
    ensures var s' := Step(s, env, Restart(c));
            Current(s', env, oid, typesValid)
            <==> env.runtime(s.catalog[oid]) == c || Current(s, env, oid, typesValid)
  {
    var s' := Step(s, env, Restart(c));
    CurrentIff(s, env, oid, typesValid);
    CurrentIff(s', env, oid, typesValid);
  }

  /** Coherence is what makes a call run the current version. */
  lemma CoherentCallIsCurrent(s: State, env: Env, oid: nat, typesValid: bool)
    requires Inv(s, env) && oid in s.catalog
    ensures Current(s, env, oid, typesValid)
  {
    assert Agrees(s, env, oid);
    CurrentIff(s, env, oid, typesValid);
  }

  // -------------------------------------------------------------- whole runs

  const INIT: State := State(map[], [], map[], map[], 0)

  /** Every action is enabled in its turn and keeps the premise. */
  ghost predicate Runs(s: State, env: Env, acts: seq<Action>)
    requires Bounded(s)
    decreases |acts|
  {
    acts == [] ||
    (&& Enabled(s, acts[0]) && Safe(s, env, acts[0])
     && (StepKeepsBounds(s, env, acts[0]); Runs(Step(s, env, acts[0]), env, acts[1..])))
  }

  ghost function Exec(s: State, env: Env, acts: seq<Action>): (s': State)
    requires Bounded(s) && Runs(s, env, acts)
    ensures Bounded(s')
    decreases |acts|
  {
    if acts == [] then s
    else StepKeepsBounds(s, env, acts[0]); Exec(Step(s, env, acts[0]), env, acts[1..])
  }

  lemma {:induction false} RunKeeps(s: State, env: Env, acts: seq<Action>)
    requires Inv(s, env) && Runs(s, env, acts)
    ensures Inv(Exec(s, env, acts), env)
    decreases |acts|
  {
    if acts != [] {
      StepKeeps(s, env, acts[0]);
      RunKeeps(Step(s, env, acts[0]), env, acts[1..]);
    }
  }

  /** In every run of catalog changes, calls, row steps, evictions on either side and container restarts
      within the premise, whatever container a version runs in, the next call of any function executes
      the version that the catalog has at that moment. */
  lemma EveryCallIsCurrent(env: Env, acts: seq<Action>, oid: nat, typesValid: bool)
    requires Runs(INIT, env, acts)
    requires oid in Exec(INIT, env, acts).catalog
    ensures Current(Exec(INIT, env, acts), env, oid, typesValid)
  {
    RunKeeps(INIT, env, acts);
    CoherentCallIsCurrent(Exec(INIT, env, acts), env, oid, typesValid);
  }

  /** Every action is enabled in its turn. */
  ghost predicate Possible(s: State, env: Env, acts: seq<Action>)
    requires Bounded(s)
    decreases |acts|
  {
    acts == [] ||
    (&& Enabled(s, acts[0])
     && (StepKeepsBounds(s, env, acts[0]); Possible(Step(s, env, acts[0]), env, acts[1..])))
  }

  ghost predicate AllCurrent(s: State, env: Env) {
    forall oid, typesValid | oid in s.catalog :: Current(s, env, oid, typesValid)
  }

  /** At every moment of the run any call would execute the catalog's version. */
  ghost predicate AlwaysCurrent(s: State, env: Env, acts: seq<Action>)
    requires Bounded(s) && Possible(s, env, acts)
    decreases |acts|
  {
    && AllCurrent(s, env)
    && (acts == [] ||
        (StepKeepsBounds(s, env, acts[0]); AlwaysCurrent(Step(s, env, acts[0]), env, acts[1..])))
  }

  lemma UnsafeNotCurrent(s: State, env: Env, a: Action)
    requires Bounded(s) && Enabled(s, a) && !Safe(s, env, a)
    ensures !AllCurrent(Step(s, env, a), env)
  {
    if oid :| Releases(s, env, a, oid) {
      AfterNamesake(s, env, a, oid);
    } else {
      AfterFailedRebuild(s, env, a);
    }
  }

  /** The premise is exact: the calls of a run are current at every moment if and only if it holds at
      every step. */
  lemma {:induction false} AlwaysCurrentIff(s: State, env: Env, acts: seq<Action>)
    requires Inv(s, env) && Possible(s, env, acts)
    ensures AlwaysCurrent(s, env, acts) <==> Runs(s, env, acts)
    decreases |acts|
  {
    forall oid, typesValid | oid in s.catalog ensures Current(s, env, oid, typesValid) {
      CoherentCallIsCurrent(s, env, oid, typesValid);
    }
    if acts != [] {
      var a := acts[0];
      StepKeepsBounds(s, env, a);
      if Safe(s, env, a) {
        StepKeeps(s, env, a);
        AlwaysCurrentIff(Step(s, env, a), env, acts[1..]);
      } else {
        UnsafeNotCurrent(s, env, a);
      }
    }
  }

  lemma EveryRunIsCurrentIff(env: Env, acts: seq<Action>)
    requires Possible(INIT, env, acts)
    ensures AlwaysCurrent(INIT, env, acts) <==> Runs(INIT, env, acts)
  {
    AlwaysCurrentIff(INIT, env, acts);
  }

  // ------------------------------------------------- why the premise is needed

  /** What the next call executes after such a lookup: its request says "not changed", so it is current
      exactly if the container has nothing unusable cached for the function. */
  lemma AfterFailedRebuild(s: State, env: Env, a: Action)
    requires Bounded(s) && Enabled(s, a) && Unreached(s, a)
    ensures Current(Step(s, env, a), env, a.oid, true)
            <==> !Unusable(s, env, a.oid)
  {
    var s', c := Step(s, env, a), env.runtime(s.catalog[a.oid]);
    QeAfterCall(s, a.oid, a.typesValid, a.oid);
    if a.Call? {
      ClientAfterCall(Client(s, c), a.oid, true, s.catalog[a.oid], a.outcome);
      assert Client(s', c) == AfterHandleCall(Client(s, c), a.oid, true, s.catalog[a.oid], a.outcome);
    }
    assert Lookup(Client(s', c), a.oid) == Lookup(Client(s, c), a.oid) && Dict(s', c) == Dict(s, c);
    hide AfterProcedureGet, AfterHandleCall, AfterCompile, Lookup;
    CurrentIff(s', env, a.oid, true);
  }

  /** After a namesake was compiled the next call uses an object that is gone. */
  lemma AfterNamesake(s: State, env: Env, a: Action, oid: nat)
    requires Bounded(s) && Enabled(s, a) && Releases(s, env, a, oid)
    ensures !Current(Step(s, env, a), env, oid, true)
  {
    hide AfterProcedureGet, AfterHandleCall, Lookup;
  }

  lemma RunCons(s: State, env: Env, a: Action, acts: seq<Action>, s1: State)
    requires Bounded(s) && Enabled(s, a) && Safe(s, env, a)
    requires s1 == Step(s, env, a) && Bounded(s1) && Runs(s1, env, acts)
    ensures Runs(s, env, [a] + acts) && Exec(s, env, [a] + acts) == Exec(s1, env, acts)
  {
    hide Step, Enabled, Safe, Bounded;
    assert ([a] + acts)[1..] == acts;
  }

  /** From s by this action, within the premise, to s1. */
  ghost predicate Leads(s: State, env: Env, a: Action, s1: State) {
    Bounded(s) && Enabled(s, a) && Safe(s, env, a) && s1 == Step(s, env, a) && Bounded(s1)
  }

  /** Create, call, alter: both caches are left with the version before. */
  lemma CachedThenAltered(env: Env) returns (s1: State, s2: State, s3: State)
    requires forall v :: env.runtime(v) == 0
    ensures Leads(INIT, env, Alter(0), s1) && Leads(s1, env, Call(0, true, Reached), s2)
    ensures Leads(s2, env, Alter(0), s3) && Inv(s3, env)
    ensures s3.qe == [Entry(0, 0)] && Client(s3, 0) == [Entry(0, 0)] && s3.catalog == map[0 := 1]
  {
    StepKeeps(INIT, env, Alter(0));
    s1 := Step(INIT, env, Alter(0));
    StepKeeps(s1, env, Call(0, true, Reached));
    s2 := Step(s1, env, Call(0, true, Reached));
    StepKeeps(s2, env, Alter(0));
    s3 := Step(s2, env, Alter(0));
  }

  /** And such runs exist: create, call, alter, and then a lookup that does not reach the client. */
  lemma UnreachedGoesStale(a: Action)
    requires (a.RowStep? || (a.Call? && !a.outcome.Reached?)) && a.oid == 0
    ensures exists env: Env, acts ::
              && Runs(INIT, env, acts) && Enabled(Exec(INIT, env, acts), a)
              && !Current(Step(Exec(INIT, env, acts), env, a), env, 0, true)
  {
    var env := Env(_ => 0, _ => 0);
    var s1, s2, s3 := CachedThenAltered(env);
    assert Find(s3.qe, 0) == 0;
    AfterFailedRebuild(s3, env, a);
    assert Runs(s3, env, []) && Exec(s3, env, []) == s3 && Enabled(s3, a);
    hide *;
    RunOfThree(env, Alter(0), Call(0, true, Reached), Alter(0), s1, s2, s3);
  }

  /** A new source that does not compile. */
  lemma FailedRebuildGoesStale()
    ensures exists env: Env, acts ::
              && Runs(INIT, env, acts) && Enabled(Exec(INIT, env, acts), Call(0, true, NotCompiled))
              && !Current(Step(Exec(INIT, env, acts), env, Call(0, true, NotCompiled)), env, 0, true)
  {
    UnreachedGoesStale(Call(0, true, NotCompiled));
  }

  /** No error at all: the function is altered while its rows are still being fetched. */
  lemma RowStepGoesStale()
    ensures exists env: Env, acts ::
              && Runs(INIT, env, acts) && Enabled(Exec(INIT, env, acts), RowStep(0, true))
              && !Current(Step(Exec(INIT, env, acts), env, RowStep(0, true)), env, 0, true)
  {
    UnreachedGoesStale(RowStep(0, true));
  }

  lemma RunOfThree(env: Env, a1: Action, a2: Action, a3: Action, s1: State, s2: State, s3: State)
    requires Leads(INIT, env, a1, s1) && Leads(s1, env, a2, s2) && Leads(s2, env, a3, s3)
    ensures var acts := [a1] + ([a2] + ([a3] + [])); Runs(INIT, env, acts) && Exec(INIT, env, acts) == s3
  {
    assert Runs(s3, env, []) && Exec(s3, env, []) == s3;
    hide Step, Enabled, Safe, Bounded, Runs, Exec;
    RunCons(s2, env, a3, [], s3);
    RunCons(s1, env, a2, [a3] + [], s2);
    RunCons(INIT, env, a1, [a2] + ([a3] + []), s1);
  }

  /** Two functions with one name, as overloads have: both are created, the first is called, and then
      the second; the first then has no object. */
  lemma OverloadReleased()
    ensures exists env: Env, acts ::
              && Runs(INIT, env, acts) && 0 in Exec(INIT, env, acts).catalog
              && Enabled(Exec(INIT, env, acts), Call(1, true, Reached))
              && !Current(Step(Exec(INIT, env, acts), env, Call(1, true, Reached)), env, 0, true)
  {
    var env := Env(_ => 0, _ => 0);
    var s1, s2, s3 := TwoCreated(env);
    SecondReleases(s3, env);
    AfterNamesake(s3, env, Call(1, true, Reached), 0);
    assert Enabled(s3, Call(1, true, Reached)) && 0 in s3.catalog;
    hide *;
    RunOfThree(env, Alter(0), Alter(1), Call(0, true, Reached), s1, s2, s3);
  }

  lemma TwoCreated(env: Env) returns (s1: State, s2: State, s3: State)
    requires forall v :: env.runtime(v) == 0 && env.name(v) == 0
    ensures Leads(INIT, env, Alter(0), s1) && Leads(s1, env, Alter(1), s2)
    ensures Leads(s2, env, Call(0, true, Reached), s3)
    ensures s3.qe == [Entry(0, 0)] && Client(s3, 0) == [Entry(0, 0)] && s3.catalog == map[0 := 0, 1 := 1]
  {
    StepKeeps(INIT, env, Alter(0));
    s1 := Step(INIT, env, Alter(0));
    StepKeeps(s1, env, Alter(1));
    s2 := Step(s1, env, Alter(1));
    StepKeeps(s2, env, Call(0, true, Reached));
    s3 := Step(s2, env, Call(0, true, Reached));
  }

  lemma SecondReleases(s: State, env: Env)
    requires forall v :: env.runtime(v) == 0 && env.name(v) == 0
    requires s.qe == [Entry(0, 0)] && Client(s, 0) == [Entry(0, 0)] && s.catalog == map[0 := 0, 1 := 1]
    ensures Releases(s, env, Call(1, true, Reached), 0)
  {
    var put := AfterPut([Entry(0, 0)], QE_CACHE_SIZE, Entry(1, 1));
    assert put == [Entry(1, 1), Entry(0, 0)];
  }
}
