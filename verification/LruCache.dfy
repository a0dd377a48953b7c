/** The two function caches: src/function_cache.c on the database side (5 entries) and
    src/pyclient/pycache.c in the client (20 entries).  Both keep an array of pointers, most
    recently used first, and shift it in place. */
module LruCache {
  import opened Basics

  const QE_CACHE_SIZE: nat := 5
  const CLIENT_CACHE_SIZE: nat := 20

  /** A cached function; `val` stands for everything behind the pointer. */
  datatype Entry<V> = Entry(key: nat, val: V)

  predicate DistinctKeys<V>(c: seq<Entry<V>>) {
    forall i, j | 0 <= i < j < |c| :: c[i].key != c[j].key
  }

  predicate Keyed<V>(c: seq<Entry<V>>, key: nat) {
    exists i | 0 <= i < |c| :: c[i].key == key
  }

  /** The first position of a key, or the length. */
  function Find<V>(c: seq<Entry<V>>, key: nat): (i: nat)
    ensures i <= |c|
    ensures forall j | 0 <= j < i :: c[j].key != key
    ensures i < |c| ==> c[i].key == key
  {
    if c == [] then 0 else if c[0].key == key then 0 else 1 + Find(c[1..], key)
  }

  // ------------------------------------------------- what get and put compute

  /** e in front, and entry i gone. */
  function ToFront<V>(c: seq<Entry<V>>, i: nat, e: Entry<V>): seq<Entry<V>>
    requires i < |c|
  {
    [e] + (c[..i] + c[i + 1..])
  }

  lemma ToFrontElements<V>(c: seq<Entry<V>>, i: nat, e: Entry<V>)
    requires i < |c| && e.key == c[i].key
    ensures var c' := ToFront(c, i, e);
            && |c'| == |c| && c'[0] == e
            && (forall j | 0 < j < |c| :: c'[j] == c[if j <= i then j - 1 else j])
            && (DistinctKeys(c) ==> DistinctKeys(c'))
  {
  }

  function Evict<V>(c: seq<Entry<V>>, capacity: nat): seq<Entry<V>>
    requires 0 < capacity && |c| <= capacity
  {
    if |c| == capacity then c[..capacity - 1] else c
  }

  function AfterGet<V>(c: seq<Entry<V>>, key: nat): seq<Entry<V>> {
    var i := Find(c, key);
    if i < |c| then ToFront(c, i, c[i]) else c
  }

  function AfterPut<V>(c: seq<Entry<V>>, capacity: nat, e: Entry<V>): seq<Entry<V>>
    requires 0 < capacity && |c| <= capacity
  {
    var i := Find(c, e.key);
    if i < |c| then ToFront(c, i, e) else [e] + Evict(c, capacity)
  }

  /** The function whose memory a put releases: the one it replaces, else the one it evicts. */
  function Released<V>(c: seq<Entry<V>>, capacity: nat, e: Entry<V>): seq<Entry<V>>
    requires 0 < capacity && |c| <= capacity
  {
    var i := Find(c, e.key);
    if i < |c| then [c[i]]
    else if |c| == capacity then [c[capacity - 1]]
    else []
  }

  // ----------------------------------------------------------- the array code

  class Cache<V(==)> {
    const slots: array<Option<Entry<V>>>
    ghost var contents: seq<Entry<V>>
    ghost var freed: seq<Entry<V>>

    /** Non-empty slots form a prefix, and that prefix is the contents. */
    ghost predicate Valid()
      reads this, slots
    {
      && 0 < slots.Length && |contents| <= slots.Length
      && (forall i | 0 <= i < |contents| :: slots[i] == Some(contents[i]))
      && (forall i | |contents| <= i < slots.Length :: slots[i] == None)
      && DistinctKeys(contents)
    }

    constructor (capacity: nat)
      requires 0 < capacity
      ensures Valid() && slots.Length == capacity && contents == [] && freed == [] && fresh(slots)
    {
      slots := new Option<Entry<V>>[capacity](_ => None);
      contents, freed := [], [];
    }

    /** Shifts slots[..index] one to the right and puts the entry at `index` in front. */
    method Up(index: nat)
      requires index < slots.Length
      modifies slots
      ensures slots[0] == old(slots[index])
      ensures forall j | 0 < j <= index :: slots[j] == old(slots[j - 1])
      ensures forall j | index < j < slots.Length :: slots[j] == old(slots[j])
    {
      if index > 0 {
        var tmp := slots[index];
        var i := index;
        while i > 0
          invariant 0 <= i <= index
          invariant forall j | i < j <= index :: slots[j] == old(slots[j - 1])
          invariant forall j | 0 <= j <= i :: j < index ==> slots[j] == old(slots[j])
          invariant forall j | index < j < slots.Length :: slots[j] == old(slots[j])
        {
          slots[i] := slots[i - 1];
          i := i - 1;
        }
        slots[0] := tmp;
      }
    }

    method Get(key: nat) returns (r: Option<Entry<V>>)
      requires Valid()
      modifies this`contents, slots
      ensures Valid() && contents == AfterGet(old(contents), key)
      ensures r == if Keyed(old(contents), key) then Some(contents[0]) else None
      ensures r.Some? ==> r.value.key == key && r.value in old(contents)
    {
      r := None;
      var i := 0;
      while i < slots.Length
        invariant 0 <= i <= slots.Length
        invariant forall j | 0 <= j < i && j < |contents| :: contents[j].key != key
        invariant unchanged(this) && unchanged(slots)
      {
        if slots[i].Some? && slots[i].value.key == key {
          r := slots[i];
          assert Find(contents, key) == i;
          ToFrontElements(contents, i, contents[i]);
          hide ToFront, DistinctKeys;
          contents := ToFront(contents, i, contents[i]);
          Up(i);
          return;
        }
        i := i + 1;
      }
    }

    /** Moves everything one to the right, dropping the last entry, which is freed first. */
    method MakeRoom()
      requires Valid()
      modifies this`freed, slots
      ensures freed == old(freed) + (if |old(contents)| == slots.Length then [old(contents)[slots.Length - 1]] else [])
      ensures forall j | 0 < j < slots.Length :: slots[j] == old(slots[j - 1])
    {
      if slots[slots.Length - 1].Some? {
        freed := freed + [slots[slots.Length - 1].value];
      }
      var i := slots.Length - 1;
      while i > 0
        modifies slots
        invariant 0 <= i < slots.Length
        invariant forall j | i < j < slots.Length :: slots[j] == old(slots[j - 1])
        invariant forall j | 0 <= j <= i :: slots[j] == old(slots[j])
      {
        slots[i] := slots[i - 1];
        i := i - 1;
      }
    }

    method Put(e: Entry<V>)
      requires Valid()
      modifies this, slots
      ensures Valid()
      ensures contents == AfterPut(old(contents), slots.Length, e)
      ensures freed == old(freed) + Released(old(contents), slots.Length, e)
    {
      var oldFunc := Get(e.key);
      if oldFunc.None? {
        MakeRoom();
      } else {
        freed := freed + [oldFunc.value];
      }
      slots[0] := Some(e);
      contents := AfterPut(old(contents), slots.Length, e);
    }
  }

  // -------------------------------------------------------------- whole runs

  datatype Op<V> = Get(key: nat) | Put(entry: Entry<V>)

  /** A cache with its history: the keys touched by puts and hits (latest first), every entry
      ever put (latest first), and every entry freed. */
  datatype Trace<V> = Trace(contents: seq<Entry<V>>, touched: seq<nat>, puts: seq<Entry<V>>, freed: seq<Entry<V>>)

  function Apply<V>(t: Trace<V>, capacity: nat, op: Op<V>): Trace<V>
    requires 0 < capacity && |t.contents| <= capacity
  {
    match op
    case Get(key) =>
      t.(contents := AfterGet(t.contents, key),
         touched := if Find(t.contents, key) < |t.contents| then [key] + t.touched else t.touched)
    case Put(e) =>
      Trace(AfterPut(t.contents, capacity, e), [e.key] + t.touched, [e] + t.puts,
            t.freed + Released(t.contents, capacity, e))
  }

  /** Bounds of the contents after a step, so that runs can be composed. */
  lemma ApplyBounded<V>(t: Trace<V>, capacity: nat, op: Op<V>)
    requires 0 < capacity && |t.contents| <= capacity
    ensures |Apply(t, capacity, op).contents| <= capacity
  {
  }

  function Run<V>(capacity: nat, ops: seq<Op<V>>): (t: Trace<V>)
    requires 0 < capacity
    ensures |t.contents| <= capacity
  {
    if ops == [] then Trace([], [], [], [])
    else
      var t := Run(capacity, ops[..|ops| - 1]);
      ApplyBounded(t, capacity, ops[|ops| - 1]);
      Apply(t, capacity, ops[|ops| - 1])
  }

  /** How many touches ago a key was last touched; the length if never. */
  function Age(touched: seq<nat>, key: nat): (n: nat)
    ensures n <= |touched|
    ensures n < |touched| <==> key in touched
  {
    if touched == [] then 0 else if touched[0] == key then 0 else 1 + Age(touched[1..], key)
  }

  /** The latest entry put under a key. */
  function Latest<V>(puts: seq<Entry<V>>, key: nat): Option<Entry<V>> {
    if puts == [] then None else if puts[0].key == key then Some(puts[0]) else Latest(puts[1..], key)
  }

  /** Each key's value is the one put last. */
  ghost predicate UpToDate<V>(c: seq<Entry<V>>, puts: seq<Entry<V>>) {
    forall i | 0 <= i < |c| :: Latest(puts, c[i].key) == Some(c[i])
  }

  function IndexOf(ks: seq<nat>, k: nat): (i: nat)
    ensures i <= |ks|
    ensures forall j | 0 <= j < i :: ks[j] != k
    ensures i < |ks| ==> ks[i] == k
  {
    if ks == [] then 0 else if ks[0] == k then 0 else 1 + IndexOf(ks[1..], k)
  }

  function Without(ks: seq<nat>, k: nat): seq<nat> {
    var i := IndexOf(ks, k);
    if i < |ks| then ks[..i] + ks[i + 1..] else ks
  }

  function Take(ks: seq<nat>, n: nat): seq<nat> {
    if |ks| <= n then ks else ks[..n]
  }

  /** The distinct keys of a list of touches, latest first. */
  function Recency(touched: seq<nat>): seq<nat> {
    if touched == [] then [] else [touched[0]] + Without(Recency(touched[1..]), touched[0])
  }

  predicate Distinct(ks: seq<nat>) {
    forall i, j | 0 <= i < j < |ks| :: ks[i] != ks[j]
  }

  predicate ByAge(ks: seq<nat>, touched: seq<nat>) {
    forall i, j | 0 <= i < j < |ks| :: Age(touched, ks[i]) < Age(touched, ks[j])
  }

  lemma WithoutSkips(ks: seq<nat>, k: nat)
    requires Distinct(ks)
    ensures Distinct(Without(ks, k)) && k !in Without(ks, k)
    ensures forall touched | ByAge(ks, touched) :: ByAge(Without(ks, k), touched)
  {
    var (i, w) := (IndexOf(ks, k), Without(ks, k));
    assert forall j | 0 <= j < |w| :: w[j] == ks[if j < i then j else j + 1];
  }

  lemma WithoutMembers(ks: seq<nat>, k: nat, x: nat)
    requires x != k
    ensures x in Without(ks, k) <==> x in ks
  {
    var (i, w) := (IndexOf(ks, k), Without(ks, k));
    if x in ks {
      var j :| 0 <= j < |ks| && ks[j] == x;
      assert i < |ks| ==> w[if j < i then j else j - 1] == x;
    }
  }

  lemma {:induction false} RecencyMembers(touched: seq<nat>, x: nat)
    ensures x in Recency(touched) <==> x in touched
  {
    if touched != [] {
      RecencyMembers(touched[1..], x);
      if x != touched[0] {
        WithoutMembers(Recency(touched[1..]), touched[0], x);
      }
    }
  }

  lemma OlderByOne(w: seq<nat>, touched: seq<nat>)
    requires touched != [] && touched[0] !in w && ByAge(w, touched[1..])
    ensures ByAge(w, touched)
  {
    assert forall i | 0 <= i < |w| :: w[i] in w && Age(touched, w[i]) == 1 + Age(touched[1..], w[i]);
  }

  lemma ConsByAge(w: seq<nat>, k: nat, touched: seq<nat>)
    requires touched != [] && touched[0] == k && k !in w && Distinct(w) && ByAge(w, touched)
    ensures Distinct([k] + w) && ByAge([k] + w, touched)
  {
    var r := [k] + w;
    assert forall i | 0 < i < |r| :: r[i] == w[i - 1];
    assert forall i | 0 <= i < |w| :: w[i] in w && Age(touched, w[i]) > 0;
  }

  /** Recency lists the touched keys, each once, in the order of their last touch. */
  lemma {:induction false} RecencyIsByAge(touched: seq<nat>)
    ensures Distinct(Recency(touched)) && ByAge(Recency(touched), touched)
  {
    if touched != [] {
      var (k, old_) := (touched[0], touched[1..]);
      RecencyIsByAge(old_);
      WithoutSkips(Recency(old_), k);
      var w := Without(Recency(old_), k);
      hide Without, Distinct, ByAge;
      OlderByOne(w, touched);
      ConsByAge(w, k, touched);
    }
  }

  lemma TakeOfHit(r: seq<nat>, n: nat, k: nat)
    requires k in Take(r, n)
    ensures Take([k] + Without(r, k), n) == [k] + Without(Take(r, n), k)
  {
    hide IndexOf;
    IndexOfTake(r, n, k);
    var i := IndexOf(r, k);
    assert Take([k] + (r[..i] + r[i + 1..]), n) == [k] + (Take(r, n)[..i] + Take(r, n)[i + 1..]);
  }

  lemma {:induction false} IndexOfTake(r: seq<nat>, n: nat, k: nat)
    ensures IndexOf(Take(r, n), k) == if IndexOf(r, k) < n then IndexOf(r, k) else |Take(r, n)|
    ensures k in Take(r, n) <==> IndexOf(Take(r, n), k) < |Take(r, n)|
  {
    var i := IndexOf(Take(r, n), k);
    if i < |Take(r, n)| {
      assert r[i] == k;
    }
  }

  lemma TakeOfMiss(r: seq<nat>, n: nat, k: nat)
    requires 0 < n && k !in Take(r, n)
    ensures Take([k] + Without(r, k), n) == [k] + Take(r, n - 1)
  {
    IndexOfTake(r, n, k);
  }

  function Keys<V>(c: seq<Entry<V>>): (ks: seq<nat>)
    ensures |ks| == |c|
  {
    if c == [] then [] else [c[0].key] + Keys(c[1..])
  }

  lemma {:induction false} KeysOfConcat<V>(a: seq<Entry<V>>, b: seq<Entry<V>>)
    ensures Keys(a + b) == Keys(a) + Keys(b)
  {
    if a == [] {
      assert a + b == b;
    } else {
      KeysOfConcat(a[1..], b);
      assert (a + b)[1..] == a[1..] + b && (a + b)[0] == a[0];
      var (x, y, z) := ([a[0].key], Keys(a[1..]), Keys(b));
      assert x + y + z == x + (y + z);
    }
  }

  lemma KeysOfSplit<V>(c: seq<Entry<V>>, i: nat)
    requires i <= |c|
    ensures Keys(c[..i]) == Keys(c)[..i] && Keys(c[i..]) == Keys(c)[i..]
  {
    hide Keys;
    KeysOfConcat(c[..i], c[i..]);
    ConcatSplit(Keys(c[..i]), Keys(c[i..]));
    assert c[..i] + c[i..] == c;
  }

  lemma {:induction false} FindIsIndexOf<V>(c: seq<Entry<V>>, k: nat)
    ensures Find(c, k) == IndexOf(Keys(c), k)
    ensures Find(c, k) < |c| <==> k in Keys(c)
  {
    if c != [] {
      FindIsIndexOf(c[1..], k);
      assert Keys(c)[1..] == Keys(c[1..]);
    }
  }

  lemma KeysOfToFront<V>(c: seq<Entry<V>>, i: nat, e: Entry<V>)
    requires i < |c|
    ensures Keys(ToFront(c, i, e)) == [e.key] + (Keys(c)[..i] + Keys(c)[i + 1..])
  {
    assert Keys([e]) == [e.key];
    hide Keys;
    KeysOfSplit(c, i);
    KeysOfSplit(c, i + 1);
    KeysOfConcat(c[..i], c[i + 1..]);
    KeysOfConcat([e], c[..i] + c[i + 1..]);
  }

  lemma KeysOfHit<V>(c: seq<Entry<V>>, e: Entry<V>)
    requires Find(c, e.key) < |c|
    ensures Keys(ToFront(c, Find(c, e.key), e)) == [e.key] + Without(Keys(c), e.key)
  {
    var i := Find(c, e.key);
    hide Keys, ToFront, Find, IndexOf;
    FindIsIndexOf(c, e.key);
    assert Without(Keys(c), e.key) == Keys(c)[..i] + Keys(c)[i + 1..];
    hide Without;
    KeysOfToFront(c, i, e);
  }

  lemma KeysOfMiss<V>(c: seq<Entry<V>>, capacity: nat, e: Entry<V>)
    requires 0 < capacity && |c| <= capacity && Find(c, e.key) == |c|
    ensures Keys(AfterPut(c, capacity, e)) == [e.key] + Take(Keys(c), capacity - 1)
  {
    assert Keys([e]) == [e.key];
    hide Keys, Find;
    KeysOfConcat([e], Evict(c, capacity));
    if |c| == capacity {
      KeysOfSplit(c, capacity - 1);
    }
  }

  lemma StepKeepsRecency<V>(t: Trace<V>, capacity: nat, op: Op<V>)
    requires 0 < capacity && |t.contents| <= capacity
    requires Keys(t.contents) == Take(Recency(t.touched), capacity)
    ensures var t' := Apply(t, capacity, op); Keys(t'.contents) == Take(Recency(t'.touched), capacity)
  {
    hide Take, Without;
    var (c, r) := (t.contents, Recency(t.touched));
    var k := match op case Get(k) => k case Put(e) => e.key;
    assert ([k] + t.touched)[1..] == t.touched;
    FindIsIndexOf(c, k);
    if k in Keys(c) {
      TakeOfHit(r, capacity, k);
      KeysOfHit(c, match op case Get(_) => c[Find(c, k)] case Put(e) => e);
    } else if op.Put? {
      TakeOfMiss(r, capacity, k);
      KeysOfMiss(c, capacity, op.entry);
      TakeOfTake(r, capacity);
    }
  }

  lemma TakeOfTake(r: seq<nat>, n: nat)
    requires 0 < n
    ensures Take(Take(r, n), n - 1) == Take(r, n - 1)
  {
  }

  // ------------------------------------------------------- values and memory

  lemma ToFrontKeepsValues<V>(c: seq<Entry<V>>, i: nat, e: Entry<V>, puts: seq<Entry<V>>, puts': seq<Entry<V>>)
    requires i < |c| && c[i].key == e.key && DistinctKeys(c) && UpToDate(c, puts)
    requires Latest(puts', e.key) == Some(e)
    requires forall k | k != e.key :: Latest(puts', k) == Latest(puts, k)
    ensures DistinctKeys(ToFront(c, i, e)) && UpToDate(ToFront(c, i, e), puts')
  {
    var c' := ToFront(c, i, e);
    assert forall j | 0 < j < |c'| :: c'[j] == c[if j <= i then j - 1 else j];
  }

  lemma ConsKeepsValues<V>(c: seq<Entry<V>>, capacity: nat, e: Entry<V>, puts: seq<Entry<V>>)
    requires 0 < capacity && |c| <= capacity && Find(c, e.key) == |c| && DistinctKeys(c) && UpToDate(c, puts)
    ensures DistinctKeys([e] + Evict(c, capacity)) && UpToDate([e] + Evict(c, capacity), [e] + puts)
  {
    var c' := [e] + Evict(c, capacity);
    LatestOfCons(e, puts);
    assert forall j | 0 < j < |c'| :: c'[j] == c[j - 1];
  }

  lemma LatestOfCons<V>(e: Entry<V>, puts: seq<Entry<V>>)
    ensures forall k :: Latest([e] + puts, k) == if k == e.key then Some(e) else Latest(puts, k)
  {
    assert ([e] + puts)[1..] == puts;
  }

  lemma StepKeepsValues<V>(t: Trace<V>, capacity: nat, op: Op<V>)
    requires 0 < capacity && |t.contents| <= capacity
    requires UpToDate(t.contents, t.puts) && DistinctKeys(t.contents)
    ensures var t' := Apply(t, capacity, op); UpToDate(t'.contents, t'.puts) && DistinctKeys(t'.contents)
  {
    hide ToFront, Evict;
    var c := t.contents;
    match op
    case Get(k) =>
      var i := Find(c, k);
      if i < |c| {
        ToFrontKeepsValues(c, i, c[i], t.puts, t.puts);
      }
    case Put(e) =>
      var i := Find(c, e.key);
      if i < |c| {
        LatestOfCons(e, t.puts);
        ToFrontKeepsValues(c, i, e, t.puts, [e] + t.puts);
      } else {
        ConsKeepsValues(c, capacity, e, t.puts);
      }
  }

  lemma ToFrontBag<V>(c: seq<Entry<V>>, i: nat, e: Entry<V>)
    requires i < |c|
    ensures multiset(ToFront(c, i, e)) + multiset{c[i]} == multiset(c) + multiset{e}
  {
    assert c == c[..i] + [c[i]] + c[i + 1..];
  }

  lemma EvictBag<V>(c: seq<Entry<V>>, capacity: nat)
    requires 0 < capacity == |c|
    ensures multiset(Evict(c, capacity)) + multiset{c[capacity - 1]} == multiset(c)
  {
    assert c == c[..capacity - 1] + [c[capacity - 1]];
  }

  ghost predicate Conserved<V>(t: Trace<V>) {
    multiset(t.puts) == multiset(t.contents) + multiset(t.freed)
  }

  lemma BagOfCons<V>(x: V, s: seq<V>)
    ensures multiset([x] + s) == multiset{x} + multiset(s)
    ensures multiset(s + [x]) == multiset{x} + multiset(s)
  {
  }

  lemma BagCancel<V>(a: multiset<V>, c: multiset<V>, x: V)
    requires a + multiset{x} == c + multiset{x}
    ensures a == c
  {
    forall y ensures a[y] == c[y] {
      assert (a + multiset{x})[y] == (c + multiset{x})[y];
    }
  }

  lemma Rebalance<V>(a: multiset<V>, c: multiset<V>, f: multiset<V>, p: multiset<V>, e: V, x: V)
    requires a + multiset{x} == c + multiset{e} && p == c + f
    ensures multiset{e} + p == a + (multiset{x} + f)
  {
    assert multiset{e} + (c + f) == (c + multiset{e}) + f;
    assert a + multiset{x} + f == a + (multiset{x} + f);
  }

  lemma StepConserves<V>(t: Trace<V>, capacity: nat, op: Op<V>)
    requires 0 < capacity && |t.contents| <= capacity && Conserved(t)
    ensures Conserved(Apply(t, capacity, op))
  {
    hide ToFront, Evict, Find;
    var c := t.contents;
    match op
    case Get(k) =>
      if Find(c, k) < |c| {
        ToFrontBag(c, Find(c, k), c[Find(c, k)]);
        BagCancel(multiset(Apply(t, capacity, op).contents), multiset(c), c[Find(c, k)]);
      }
    case Put(e) => PutConserves(t, capacity, e);
  }

  lemma PutConserves<V>(t: Trace<V>, capacity: nat, e: Entry<V>)
    requires 0 < capacity && |t.contents| <= capacity && Conserved(t)
    ensures Conserved(Apply(t, capacity, Put(e)))
  {
    hide ToFront, Evict, Find;
    var c := t.contents;
    var i := Find(c, e.key);
    if i < |c| {
      HitBags(t.puts, c, t.freed, i, e);
    } else {
      MissBags(t.puts, c, t.freed, capacity, e);
    }
  }

  lemma HitBags<V>(puts: seq<Entry<V>>, c: seq<Entry<V>>, freed: seq<Entry<V>>, i: nat, e: Entry<V>)
    requires i < |c| && multiset(puts) == multiset(c) + multiset(freed)
    ensures multiset([e] + puts) == multiset(ToFront(c, i, e)) + multiset(freed + [c[i]])
  {
    ToFrontBag(c, i, e);
    hide ToFront;
    BagOfCons(e, puts);
    BagOfCons(c[i], freed);
    Rebalance(multiset(ToFront(c, i, e)), multiset(c), multiset(freed), multiset(puts), e, c[i]);
  }

  lemma MissBags<V>(puts: seq<Entry<V>>, c: seq<Entry<V>>, freed: seq<Entry<V>>, capacity: nat, e: Entry<V>)
    requires 0 < capacity && |c| <= capacity && multiset(puts) == multiset(c) + multiset(freed)
    ensures multiset([e] + puts) == multiset([e] + Evict(c, capacity))
              + multiset(freed + if |c| == capacity then [c[capacity - 1]] else [])
  {
    BagOfCons(e, puts);
    BagOfCons(e, Evict(c, capacity));
    if |c| == capacity {
      EvictBag(c, capacity);
      BagOfCons(c[capacity - 1], freed);
      hide Evict;
      EvictedBags(multiset(Evict(c, capacity)), multiset(c), multiset(freed), e, c[capacity - 1]);
    } else {
      EvictNone(c, capacity);
      assert freed + [] == freed;
    }
  }

  lemma EvictedBags<V>(a: multiset<V>, c: multiset<V>, f: multiset<V>, e: V, x: V)
    requires a + multiset{x} == c
    ensures multiset{e} + (c + f) == multiset{e} + a + (multiset{x} + f)
  {
  }

  lemma EvictNone<V>(c: seq<Entry<V>>, capacity: nat)
    requires |c| < capacity
    ensures Evict(c, capacity) == c
  {
  }

  /** After any run of gets and puts the cache holds the most recently touched distinct keys,
      latest first and as many as fit, each with the value put last; and every entry ever put
      is either cached or freed, once for each time it was put. */
  lemma {:induction false} EveryRunIsLru<V>(capacity: nat, ops: seq<Op<V>>)
    requires 0 < capacity
    ensures var t := Run(capacity, ops);
            && Keys(t.contents) == Take(Recency(t.touched), capacity)
            && UpToDate(t.contents, t.puts) && DistinctKeys(t.contents)
            && Conserved(t)
  {
    if ops != [] {
      EveryRunIsLru(capacity, ops[..|ops| - 1]);
      var t := Run(capacity, ops[..|ops| - 1]);
      hide Apply;
      StepKeepsRecency(t, capacity, ops[|ops| - 1]);
      StepKeepsValues(t, capacity, ops[|ops| - 1]);
      StepConserves(t, capacity, ops[|ops| - 1]);
    }
  }

  /** Functions are allocated afresh, so no entry is put twice; then none is freed twice and none
      is freed while it is cached. */
  lemma FreedOnce<V>(capacity: nat, ops: seq<Op<V>>, e: Entry<V>)
    requires 0 < capacity
    requires multiset(Run(capacity, ops).puts)[e] <= 1
    ensures var t := Run(capacity, ops);
            && multiset(t.freed)[e] <= 1
            && (e in t.puts <==> e in t.contents || e in t.freed)
            && (e in t.contents ==> e !in t.freed)
  {
    EveryRunIsLru(capacity, ops);
    var t := Run(capacity, ops);
    assert multiset(t.puts)[e] == multiset(t.contents)[e] + multiset(t.freed)[e];
    assert e in t.puts <==> e in multiset(t.puts);
    assert e in t.contents <==> e in multiset(t.contents);
    assert e in t.freed <==> e in multiset(t.freed);
  }

  // ----------------------------------------------------------------- lookups

  function Lookup<V>(c: seq<Entry<V>>, key: nat): Option<V> {
    var i := Find(c, key);
    if i < |c| then Some(c[i].val) else None
  }

  lemma LookupIs<V>(c: seq<Entry<V>>, i: nat)
    requires DistinctKeys(c) && i < |c|
    ensures Lookup(c, c[i].key) == Some(c[i].val)
  {
    var j := Find(c, c[i].key);
    assert j <= i;
  }

  /** Looking a key up moves it in front and changes no answer. */
  lemma LookupAfterGet<V>(c: seq<Entry<V>>, k: nat, key: nat)
    requires DistinctKeys(c)
    ensures DistinctKeys(AfterGet(c, k)) && |AfterGet(c, k)| == |c|
    ensures Lookup(AfterGet(c, k), key) == Lookup(c, key)
  {
    var (i, c') := (Find(c, k), AfterGet(c, k));
    if i < |c| {
      ToFrontElements(c, i, c[i]);
      var n := Find(c, key);
      if n < |c| {
        var n' := if n == i then 0 else if n < i then n + 1 else n;
        assert c'[n'] == c[n];
        LookupIs(c', n');
      }
    }
  }

  /** After a put its key has the new value; any other key has its old value or is gone. */
  lemma LookupAfterPut<V>(c: seq<Entry<V>>, capacity: nat, e: Entry<V>, key: nat)
    requires DistinctKeys(c) && 0 < capacity && |c| <= capacity
    ensures DistinctKeys(AfterPut(c, capacity, e)) && |AfterPut(c, capacity, e)| <= capacity
    ensures Lookup(AfterPut(c, capacity, e), e.key) == Some(e.val)
    ensures key != e.key ==> Lookup(AfterPut(c, capacity, e), key) in {None, Lookup(c, key)}
  {
    var (i, c') := (Find(c, e.key), AfterPut(c, capacity, e));
    if i < |c| {
      ToFrontElements(c, i, e);
    }
    var m := Find(c', key);
    if 0 < m < |c'| {
      var n := if i < |c| && m > i then m else m - 1;
      assert c'[m] == c[n];
      LookupIs(c, n);
    }
  }
}
