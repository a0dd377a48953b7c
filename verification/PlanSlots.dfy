/** The prepared plans of a connection (src/sqlhandler.c): a fixed table of slots whose empty
    entries are threaded into a free list by their `next` fields. */
module PlanSlots {

  const MAX_PPLAN: nat := 32

  /** Following `next` from `head` visits the slots of `free` in order and ends in -1. */
  predicate Linked(next: seq<int>, head: int, free: seq<int>)
    decreases |free|
  {
    if free == [] then head == -1
    else head == free[0] && 0 <= head < |next| && Linked(next, next[head], free[1..])
  }

  predicate Distinct(s: seq<int>) {
    forall i, j | 0 <= i < j < |s| :: s[i] != s[j]
  }

  /** The list does not depend on the links of other slots. */
  lemma {:induction false} LinkedElsewhere(next: seq<int>, head: int, free: seq<int>, slot: int, link: int)
    requires Linked(next, head, free) && 0 <= slot < |next| && slot !in free
    ensures Linked(next[slot := link], head, free)
    decreases |free|
  {
    if free != [] {
      LinkedElsewhere(next, next[head], free[1..], slot, link);
    }
  }

  class Slots {
    const pplan: array<int>
    const next: array<int>
    var head: int
    /** The empty slots in the order of the free list. */
    ghost var free: seq<int>
    /** The plans whose memory was released, in order. */
    ghost var freed: seq<int>

    /** Acyclic free list ending in -1 through exactly the empty slots; live plans differ. */
    ghost predicate Valid()
      reads this, pplan, next
    {
      && pplan.Length == MAX_PPLAN && next.Length == MAX_PPLAN && pplan != next
      && Linked(next[..], head, free) && Distinct(free)
      && (forall k | 0 <= k < MAX_PPLAN :: pplan[k] == 0 <==> k in free)
      && (forall j, k | 0 <= j < k < MAX_PPLAN && pplan[j] == pplan[k] :: pplan[j] == 0)
    }

    ghost function Live(): set<int>
      reads this, pplan, next
      requires Valid()
    {
      set k | 0 <= k < MAX_PPLAN && pplan[k] != 0 :: pplan[k]
    }

    /** init_pplan_slots */
    constructor ()
      ensures Valid() && Live() == {} && freed == [] && fresh(pplan) && fresh(next)
    {
      pplan := new int[MAX_PPLAN];
      next := new int[MAX_PPLAN];
      free, freed := seq(MAX_PPLAN, k => k), [];
      new;
      for i := 0 to MAX_PPLAN - 1
        invariant pplan.Length == next.Length == MAX_PPLAN && fresh(pplan) && fresh(next) && pplan != next
        invariant freed == [] && free == seq(MAX_PPLAN, k => k)
        invariant forall k | 0 <= k < i :: pplan[k] == 0 && next[k] == k + 1
      {
        pplan[i] := 0;
        next[i] := i + 1;
      }
      pplan[MAX_PPLAN - 1] := 0;
      next[MAX_PPLAN - 1] := -1;
      head := 0;
      assert free[0..] == free;
      LinkedFrom(next[..], free, 0);
      forall k | 0 <= k < MAX_PPLAN ensures k in free {
        assert free[k] == k;
      }
    }

    method Search(p: int) returns (slot: int)
      requires Valid()
      ensures slot == -1 <==> p == 0 || p !in Live()
      ensures slot != -1 ==> 0 <= slot < MAX_PPLAN && pplan[slot] == p
    {
      if p == 0 {
        return -1;
      }
      for i := 0 to MAX_PPLAN
        invariant forall k | 0 <= k < i :: pplan[k] != p
      {
        if pplan[i] == p {
          return i;
        }
      }
      return -1;
    }

    /** Fails exactly on the null plan and when every slot is in use.  A plan is inserted when it
        has just been allocated, so it is not a live one. */
    method Insert(p: int) returns (slot: int)
      requires Valid() && p !in Live()
      modifies this`head, this`free, pplan
      ensures Valid()
      ensures slot == -1 <==> p == 0 || (forall k | 0 <= k < MAX_PPLAN :: old(pplan[k]) != 0)
      ensures slot == -1 ==> Live() == old(Live())
      ensures slot != -1 ==>
                && 0 <= slot < MAX_PPLAN && old(pplan[slot]) == 0 && pplan[slot] == p
                && Live() == old(Live()) + {p}
                && forall k | 0 <= k < MAX_PPLAN && k != slot :: pplan[k] == old(pplan[k])
    {
      if p == 0 {
        return -1;
      }
      slot := head;
      if slot >= 0 {
        assert slot in free;
        pplan[slot] := p;
        head := next[slot];
        free := free[1..];
        assert forall k :: k in old(free) <==> k == slot || k in free;
        assert forall k | 0 <= k < MAX_PPLAN && k != slot && pplan[k] != 0 :: pplan[k] in old(Live());
        LiveAfter(slot);
      }
    }

    /** The set view of one changed slot. */
    twostate lemma LiveAfter(slot: int)
      requires old(Valid()) && Valid() && 0 <= slot < MAX_PPLAN
      requires forall k | 0 <= k < MAX_PPLAN && k != slot :: pplan[k] == old(pplan[k])
      ensures old(pplan[slot]) == 0 ==> Live() == old(Live()) + (if pplan[slot] == 0 then {} else {pplan[slot]})
      ensures old(pplan[slot]) != 0 && pplan[slot] == 0 ==> Live() == old(Live()) - {old(pplan[slot])}
    {
      var (was, now) := (old(Live()), Live());
      forall x ensures x in now && x != pplan[slot] ==> x in was {
        if x in now {
          var k :| 0 <= k < MAX_PPLAN && pplan[k] == x && x != 0;
          assert k != slot ==> old(pplan[k]) == x;
        }
      }
      forall x ensures x in was && x != old(pplan[slot]) ==> x in now {
        if x in was {
          var k :| 0 <= k < MAX_PPLAN && old(pplan[k]) == x && x != 0;
          assert k != slot ==> pplan[k] == x;
        }
      }
    }

    /** Empties the plan's slot and puts it in front of the free list. */
    method Delete(p: int) returns (slot: int)
      requires Valid()
      modifies this`head, this`free, pplan, next
      ensures Valid()
      ensures slot == -1 <==> p == 0 || p !in old(Live())
      ensures slot == -1 ==> Live() == old(Live()) && pplan[..] == old(pplan[..])
      ensures slot != -1 ==>
                && 0 <= slot < MAX_PPLAN && pplan[..] == old(pplan[..])[slot := 0]
                && old(pplan[slot]) == p && Live() == old(Live()) - {p}
    {
      slot := Search(p);
      if slot >= 0 {
        pplan[slot] := 0;
        next[slot] := head;
        head := slot;
        free := [slot] + free;
        assert next[..] == old(next[..])[slot := old(head)] && free[1..] == old(free);
        LinkedElsewhere(old(next[..]), old(head), old(free), slot, old(head));
        LiveAfter(slot);
      }
    }

    /** free_plc_plan: a plan that is not there is not freed. */
    method FreePlan(p: int) returns (slot: int)
      requires Valid()
      modifies this, pplan, next
      ensures Valid()
      ensures slot == -1 <==> p == 0 || p !in old(Live())
      ensures slot == -1 ==> Live() == old(Live()) && pplan[..] == old(pplan[..]) && freed == old(freed)
      ensures slot != -1 ==>
                && 0 <= slot < MAX_PPLAN && pplan[..] == old(pplan[..])[slot := 0] && old(pplan[slot]) == p
                && Live() == old(Live()) - {p} && freed == old(freed) + [p]
    {
      slot := Delete(p);
      if slot < 0 {
        return;
      }
      freed := freed + [p];
    }
  }

  lemma {:induction false} LinkedFrom(next: seq<int>, free: seq<int>, i: nat)
    requires |next| == |free| && i <= |free|
    requires forall k | 0 <= k < |free| :: free[k] == k && next[k] == if k < |free| - 1 then k + 1 else -1
    ensures Linked(next, if i == |free| then -1 else i, free[i..])
    decreases |free| - i
  {
    if i < |free| {
      LinkedFrom(next, free, i + 1);
      assert free[i..][1..] == free[i + 1..];
    }
  }

  /** The plans of a table in slot order. */
  function Plans(pplan: seq<int>): seq<int> {
    if pplan == [] then []
    else if pplan[0] == 0 then Plans(pplan[1..])
    else [pplan[0]] + Plans(pplan[1..])
  }

  /** deinit_pplan_slots frees each live plan once, in slot order, and leaves none. */
  method Deinit(s: Slots)
    requires s.Valid()
    modifies s, s.pplan, s.next
    ensures s.Valid() && s.Live() == {}
    ensures s.freed == old(s.freed) + Plans(old(s.pplan[..]))
  {
    ghost var table := s.pplan[..];
    for i := 0 to MAX_PPLAN
      invariant s.Valid()
      invariant forall k | 0 <= k < i :: s.pplan[k] == 0
      invariant s.pplan[i..] == table[i..]
      invariant s.freed + Plans(table[i..]) == old(s.freed) + Plans(table)
    {
      var p := s.pplan[i];
      assert s.pplan[i..][0] == p && table[i..][1..] == table[i + 1..];
      var slot := s.FreePlan(p);
      if p != 0 {
        assert slot == i;
      }
    }
  }

  // -------------------------------------------------------------- whole runs

  datatype Op = Prepare(plan: int) | Unprepare(plan: int)

  /** The table as its callers see it: a set of at most MAX_PPLAN plans. */
  function AfterOp(live: set<int>, op: Op): set<int> {
    match op
    case Prepare(p) => if p == 0 || |live| == MAX_PPLAN then live else live + {p}
    case Unprepare(p) => live - {p}
  }

  function AfterOps(live: set<int>, ops: seq<Op>): set<int> {
    if ops == [] then live else AfterOp(AfterOps(live, ops[..|ops| - 1]), ops[|ops| - 1])
  }

  ghost function Used(s: seq<int>): set<int> {
    set k | 0 <= k < |s| && s[k] != 0 :: s[k]
  }

  /** Live plans differ, so they fill the table only if no slot is empty. */
  lemma {:induction false} UsedSize(s: seq<int>)
    requires forall j, k | 0 <= j < k < |s| && s[j] == s[k] :: s[j] == 0
    ensures |Used(s)| <= |s| && (|Used(s)| == |s| <==> 0 !in s)
  {
    if s == [] {
      assert Used(s) == {};
    } else {
      var (front, x) := (s[..|s| - 1], s[|s| - 1]);
      UsedSize(front);
      UsedSnoc(front, x);
      assert s == front + [x];
    }
  }

  lemma UsedSnoc(front: seq<int>, x: int)
    requires x == 0 || x !in front
    ensures Used(front + [x]) == Used(front) + (if x == 0 then {} else {x})
    ensures |Used(front + [x])| == |Used(front)| + if x == 0 then 0 else 1
  {
    var s := front + [x];
    assert forall k | 0 <= k < |front| :: s[k] == front[k];
    assert x != 0 ==> s[|front|] == x;
  }

  /** After any run of inserts and deletes the table is a correct bounded set: an insert fails
      exactly on the null plan or with MAX_PPLAN live plans.  Plans are fresh when inserted. */
  method Run(s: Slots, ops: seq<Op>)
    requires s.Valid()
    requires forall i | 0 <= i < |ops| && ops[i].Prepare? :: ops[i].plan !in AfterOps(s.Live(), ops[..i])
    modifies s, s.pplan, s.next
    ensures s.Valid() && s.Live() == AfterOps(old(s.Live()), ops)
  {
    ghost var live := s.Live();
    assert ops[..|ops|] == ops;
    for i := 0 to |ops|
      invariant s.Valid() && s.Live() == AfterOps(live, ops[..i])
    {
      assert ops[..i + 1][..i] == ops[..i];
      Step(s, ops[i]);
    }
  }

  method Step(s: Slots, op: Op)
    requires s.Valid() && (op.Prepare? ==> op.plan !in s.Live())
    modifies s, s.pplan, s.next
    ensures s.Valid() && s.Live() == AfterOp(old(s.Live()), op)
  {
    ghost var table := s.pplan[..];
    assert s.Live() == Used(table);
    UsedSize(table);
    match op {
      case Prepare(p) =>
        assert 0 in table <==> exists k | 0 <= k < MAX_PPLAN :: s.pplan[k] == 0;
        var slot := s.Insert(p);
      case Unprepare(p) =>
        var slot := s.FreePlan(p);
    }
  }
}
