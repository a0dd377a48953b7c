/** The cleanup process of a container (src/containers.c): it watches the executor process and the
    container, and stops when the container is gone or when the container service keeps failing. */
module Cleaner {
  import opened Basics

  const RETRY_TIMES: nat := 60

  /** What one round of the loop gets to see: whether the executor is alive, and the answers of the
      kill, inspect and delete calls as far as they are made. */
  datatype Round = Round(alive: bool, kill: int, inspect: int, status: Option<string>, delete: int)

  /** delete_backend_if_exited: 0 when the container is gone, negative on failure. */
  function Check(r: Round): int {
    if r.inspect < 0 then r.inspect
    else if r.status == Some("exited") || r.status == Some("false") then r.delete
    else if r.status == Some("unexist") then 0
    else 1
  }

  /** The executor is dead, the container could not be killed, and neither inspect nor delete worked;
      in a hard round the kill call itself failed. */
  predicate Failing(r: Round, hard: bool) {
    !r.alive && r.kill != 0 && (hard ==> r.kill < 0) && Check(r) < 0
  }

  /** The service confirmed that the container is gone. */
  predicate Confirmed(r: Round) {
    (!r.alive && r.kill == 0) || Check(r) == 0
  }

  /** Failing rounds at the end. */
  function Streak(rounds: seq<Round>, hard: bool): (n: nat)
    ensures n <= |rounds| && forall k | |rounds| - n <= k < |rounds| :: Failing(rounds[k], hard)
  {
    if rounds == [] || !Failing(rounds[|rounds| - 1], hard) then 0
    else 1 + Streak(rounds[..|rounds| - 1], hard)
  }

  lemma {:induction false} StreakAtLeast(rounds: seq<Round>, hard: bool, n: nat)
    requires n <= |rounds| && forall k | |rounds| - n <= k < |rounds| :: Failing(rounds[k], hard)
    ensures Streak(rounds, hard) >= n
  {
    if n > 0 {
      StreakAtLeast(rounds[..|rounds| - 1], hard, n - 1);
    }
  }

  /** Failures enough to give up: 60 failing rounds from round m on, or 30 hard ones. */
  predicate Enough(rounds: seq<Round>, m: nat, hard: bool) {
    m + Limit(hard) <= |rounds| && forall k | m <= k < m + Limit(hard) :: Failing(rounds[k], hard)
  }

  function Limit(hard: bool): nat {
    if hard then RETRY_TIMES / 2 else RETRY_TIMES
  }

  predicate Short(rounds: seq<Round>, hard: bool) {
    Streak(rounds, hard) < Limit(hard)
  }

  lemma NotShort(rounds: seq<Round>, m: nat, hard: bool)
    requires Enough(rounds, m, hard)
    ensures !Short(rounds[..m + Limit(hard)], hard)
  {
    StreakAtLeast(rounds[..m + Limit(hard)], hard, Limit(hard));
  }

  lemma ShortStreaks(rounds: seq<Round>, used: nat)
    requires used <= |rounds| && forall n, hard | 0 <= n <= used :: Short(rounds[..n], hard)
    ensures forall m: nat, hard | Enough(rounds, m, hard) :: used < m + Limit(hard)
  {
    forall m: nat, hard | Enough(rounds, m, hard) ensures used < m + Limit(hard) {
      NotShort(rounds, m, hard);
    }
  }

  /** The retry counter against the failing rounds at the end. */
  predicate Counts(rounds: seq<Round>, waitTimes: nat) {
    && Streak(rounds, false) <= waitTimes <= 2 * Streak(rounds, false) + 1
    && 2 * Streak(rounds, true) <= waitTimes
  }

  lemma Start(rounds: seq<Round>)
    ensures Counts(rounds[..0], 0) && forall hard :: Short(rounds[..0], hard)
  {
  }

  lemma CountsRound(rounds: seq<Round>, used: nat, before: nat, after: nat)
    requires used < |rounds| && Counts(rounds[..used], before) && !Confirmed(rounds[used])
    requires var r := rounds[used];
             after == if Check(r) > 0 then 0 else if r.alive then 1 else if r.kill < 0 then before + 2 else before + 1
    ensures Counts(rounds[..used + 1], after)
  {
    assert rounds[..used + 1][..used] == rounds[..used];
  }

  lemma CountsMean(rounds: seq<Round>, used: nat, waitTimes: nat)
    requires used <= |rounds| && Counts(rounds[..used], waitTimes)
    ensures waitTimes < RETRY_TIMES ==> Short(rounds[..used], false) && Short(rounds[..used], true)
    ensures waitTimes >= RETRY_TIMES ==> used >= 30 && forall k | used - 30 <= k < used :: Failing(rounds[k], false)
  {
    var n := Streak(rounds[..used], false);
    assert forall k | used - n <= k < used :: rounds[..used][k] == rounds[k];
  }

  datatype Stop = Running | Gone | GaveUp

  /** The loop on any answers. It stops at the first round that confirms the container gone. It gives
      up only after at least 30 failing rounds in a row; 60 in a row, or 30 hard ones, make it give up. */
  method Clean(rounds: seq<Round>) returns (stop: Stop, used: nat, res: int)
    ensures used <= |rounds|
    ensures stop == Running ==> used == |rounds|
    ensures stop == Gone <==> used > 0 && Confirmed(rounds[used - 1])
    ensures stop == Gone ==> res == 0
    ensures stop == GaveUp ==> res < 0
    ensures forall k | 0 <= k < used - 1 :: !Confirmed(rounds[k])
    ensures stop == GaveUp ==> used >= 30 && forall k | used - 30 <= k < used :: Failing(rounds[k], false)
    ensures forall m: nat, hard | Enough(rounds, m, hard) :: stop != Running && used <= m + Limit(hard)
    ensures stop != Running && used > 0 && rounds[used - 1].alive ==> Check(rounds[used - 1]) == 0
  {
    hide Counts, Short;
    res := 0;
    var waitTimes: nat := 0;
    used := 0;
    Start(rounds);
    while used < |rounds|
      invariant used <= |rounds|
      invariant Counts(rounds[..used], waitTimes) && waitTimes < RETRY_TIMES
      invariant forall n, hard | 0 <= n <= used :: Short(rounds[..n], hard)
      invariant forall k | 0 <= k < used :: !Confirmed(rounds[k])
    {
      ShortStreaks(rounds, used);
      var r := rounds[used];
      ghost var before := waitTimes;
      if !r.alive {
        res := r.kill;
        if res == 0 {
          return Gone, used + 1, res;
        } else if res < 0 {
          waitTimes := waitTimes + 1;
        }
      } else {
        waitTimes := 0;
      }
      res := Check(r);
      if res > 0 {
        waitTimes := 0;
      } else if res == 0 {
        return Gone, used + 1, res;
      } else {
        waitTimes := waitTimes + 1;
      }
      CountsRound(rounds, used, before, waitTimes);
      used := used + 1;
      CountsMean(rounds, used, waitTimes);
      if waitTimes >= RETRY_TIMES {
        return GaveUp, used, res;
      }
    }
    ShortStreaks(rounds, used);
    return Running, used, res;
  }
}
