/** The runtime declaration at the head of a function's source (src/containers.c). */
module RuntimeMeta {
  import opened Basics

  const RUNTIME_ID_MAX_LENGTH: nat := 64
  const WORD: string := "container"

  predicate IsBlank(c: char) { c == ' ' || c == '\t' }

  predicate IsSpace(c: char) { IsBlank(c) || '\n' <= c <= '\r' }

  predicate IsNewline(c: char) { c == '\n' || c == '\r' }

  predicate IsAlnum(c: char) { '0' <= c <= '9' || 'a' <= c <= 'z' || 'A' <= c <= 'Z' }

  predicate IsIdChar(c: char) { IsAlnum(c) || c == '_' || c == '.' || c == '-' }

  predicate All(p: char -> bool, s: string) { forall i | 0 <= i < |s| :: p(s[i]) }

  predicate ValidId(id: string) {
    id != [] && IsAlnum(id[0]) && All(IsIdChar, id)
  }

  /** The pieces of a declaration: spaces, '#', blanks, "container", blanks, ':', blanks, the id,
      blanks, a newline and whatever follows. */
  datatype Declaration = Declaration(spaces: string, b1: string, b2: string, b3: string, id: string,
                                     b4: string, newline: char, rest: string)
  {
    predicate Proper() {
      && All(IsSpace, spaces) && All(IsBlank, b1) && All(IsBlank, b2) && All(IsBlank, b3) && All(IsBlank, b4)
      && IsNewline(newline) && ValidId(id) && |id| < RUNTIME_ID_MAX_LENGTH
    }

    function Text(): string { spaces + (['#'] + (b1 + (WORD + AfterWord()))) }

    function AfterWord(): string { b2 + ([':'] + (b3 + Line())) }

    function Line(): string { id + (b4 + ([newline] + rest)) }
  }

  // --------------------------------------------------------------- scanning

  /** What is left of s after its longest prefix of p-characters. */
  function Skip(p: char -> bool, s: string): (r: string)
    ensures |r| <= |s|
  {
    if s != [] && p(s[0]) then Skip(p, s[1..]) else s
  }

  lemma {:induction false} SkipSplits(p: char -> bool, s: string) returns (a: string)
    ensures s == a + Skip(p, s) && All(p, a) && (Skip(p, s) != [] ==> !p(Skip(p, s)[0]))
  {
    if s != [] && p(s[0]) {
      a := SkipSplits(p, s[1..]);
      a := [s[0]] + a;
    } else {
      a := [];
    }
  }

  lemma {:induction false} SkipPrefix(p: char -> bool, a: string, t: string)
    requires All(p, a) && (t == [] || !p(t[0]))
    ensures Skip(p, a + t) == t
  {
    if a == [] {
      assert a + t == t;
    } else {
      SkipPrefix(p, a[1..], t);
      assert (a + t)[1..] == a[1..] + t;
    }
  }

  /** s without blanks at its end. */
  function Trim(s: string): (r: string)
    ensures |r| <= |s|
  {
    if s != [] && IsBlank(s[|s| - 1]) then Trim(s[..|s| - 1]) else s
  }

  lemma {:induction false} TrimSplits(s: string) returns (b: string)
    ensures s == Trim(s) + b && All(IsBlank, b)
  {
    if s != [] && IsBlank(s[|s| - 1]) {
      b := TrimSplits(s[..|s| - 1]);
      b := b + [s[|s| - 1]];
    } else {
      b := [];
    }
  }

  lemma {:induction false} TrimSuffix(a: string, b: string)
    requires All(IsBlank, b) && a != [] && !IsBlank(a[|a| - 1])
    ensures Trim(a + b) == a
  {
    if b == [] {
      assert a + b == a;
    } else {
      TrimSuffix(a, b[..|b| - 1]);
      assert (a + b)[..|a + b| - 1] == a + b[..|b| - 1];
    }
  }

  function NotNewline(): char -> bool { c => !IsNewline(c) }

  /** The id at the head of a line that is ended by a newline. */
  function ParseLine(s: string): Option<string> {
    var tail := Skip(NotNewline(), s);
    var id := Trim(s[..|s| - |tail|]);
    if tail == [] || id == [] || |id| + 1 > RUNTIME_ID_MAX_LENGTH || !ValidId(id) then None
    else Some(id)
  }

  function ParseAfterWord(s: string): Option<string> {
    var s1 := Skip(IsBlank, s);
    if s1 == [] || s1[0] != ':' then None else ParseLine(Skip(IsBlank, s1[1..]))
  }

  function Parse(s: string): Option<string> {
    var s1 := Skip(IsSpace, s);
    if s1 == [] || s1[0] != '#' then None
    else
      var s2 := Skip(IsBlank, s1[1..]);
      if !(WORD <= s2) then None else ParseAfterWord(s2[|WORD|..])
  }

  // ---------------------------------------------- exactly the declarations

  lemma LineParses(d: Declaration)
    requires d.Proper()
    ensures ParseLine(d.Line()) == Some(d.id) && !IsBlank(d.Line()[0])
  {
    var head := d.id + d.b4;
    assert d.Line() == head + ([d.newline] + d.rest);
    assert All(NotNewline(), head);
    SkipPrefix(NotNewline(), head, [d.newline] + d.rest);
    assert d.Line()[..|head|] == head;
    TrimSuffix(d.id, d.b4);
  }

  lemma AfterWordParses(d: Declaration)
    requires d.Proper()
    ensures ParseAfterWord(d.AfterWord()) == Some(d.id)
  {
    hide ParseLine;
    LineParses(d);
    SkipPrefix(IsBlank, d.b3, d.Line());
    var t := [':'] + (d.b3 + d.Line());
    SkipPrefix(IsBlank, d.b2, t);
    assert t[1..] == d.b3 + d.Line();
  }

  /** A declaration is recognised and gives its id, however it is spaced. */
  lemma DeclarationParses(d: Declaration)
    requires d.Proper()
    ensures Parse(d.Text()) == Some(d.id)
  {
    hide ParseAfterWord;
    AfterWordParses(d);
    var t := WORD + d.AfterWord();
    SkipPrefix(IsBlank, d.b1, t);
    var u := ['#'] + (d.b1 + t);
    assert u[1..] == d.b1 + t;
    SkipPrefix(IsSpace, d.spaces, u);
    assert t[|WORD|..] == d.AfterWord();
  }

  lemma LineSplits(s: string) returns (id: string, b4: string, newline: char, rest: string)
    requires ParseLine(s).Some?
    ensures ParseLine(s) == Some(id) && s == id + (b4 + ([newline] + rest))
    ensures ValidId(id) && |id| < RUNTIME_ID_MAX_LENGTH && All(IsBlank, b4) && IsNewline(newline)
  {
    hide Skip, Trim;
    var tail := Skip(NotNewline(), s);
    var head := SkipSplits(NotNewline(), s);
    assert s[..|s| - |tail|] == head;
    id := Trim(head);
    b4 := TrimSplits(head);
    newline, rest := tail[0], tail[1..];
    assert tail == [newline] + rest;
    Assoc(id, b4, tail);
  }

  lemma AfterWordSplits(s: string) returns (d: Declaration)
    requires ParseAfterWord(s).Some?
    ensures d.AfterWord() == s && ParseAfterWord(s) == Some(d.id)
    ensures d.spaces == "" && d.b1 == "" && d.Proper()
  {
    hide ParseLine, Skip;
    var s1 := Skip(IsBlank, s);
    var b2 := SkipSplits(IsBlank, s);
    var b3 := SkipSplits(IsBlank, s1[1..]);
    var line := Skip(IsBlank, s1[1..]);
    var id, b4, newline, rest := LineSplits(line);
    d := Declaration("", "", b2, b3, id, b4, newline, rest);
    assert s1 == [':'] + (b3 + line);
  }

  /** Only declarations are recognised. */
  lemma ParsedIsDeclaration(s: string) returns (d: Declaration)
    requires Parse(s).Some?
    ensures d.Proper() && d.Text() == s && Parse(s) == Some(d.id)
  {
    hide ParseAfterWord, Skip;
    var s1 := Skip(IsSpace, s);
    var spaces := SkipSplits(IsSpace, s);
    var b1 := SkipSplits(IsBlank, s1[1..]);
    var s2 := Skip(IsBlank, s1[1..]);
    var tail := AfterWordSplits(s2[|WORD|..]);
    d := tail.(spaces := spaces, b1 := b1);
    assert d.AfterWord() == tail.AfterWord();
    assert s2 == WORD + s2[|WORD|..];
    assert s1 == ['#'] + (b1 + s2);
  }

  // -------------------------------------------------------------- as it works

  method SkipWhile(p: char -> bool, s: string, from: nat) returns (first: nat)
    requires from <= |s|
    ensures from <= first <= |s| && s[first..] == Skip(p, s[from..])
  {
    first := from;
    while first < |s| && p(s[first])
      invariant from <= first <= |s| && Skip(p, s[first..]) == Skip(p, s[from..])
    {
      assert s[first..][1..] == s[first + 1..];
      first := first + 1;
    }
  }

  /** check_runtime_id */
  method CheckRuntimeId(id: string) returns (r: int)
    ensures r == if ValidId(id) then 0 else -1
  {
    for i := 0 to |id|
      invariant i > 0 ==> IsAlnum(id[0])
      invariant forall k | 0 <= k < i :: IsIdChar(id[k])
    {
      var d := id[i];
      if d == '_' || d == '-' || d == '.' {
        if i == 0 {
          return -1;
        }
      } else if !('0' <= d <= '9') && !('a' <= d <= 'z') && !('A' <= d <= 'Z') {
        return -1;
      }
    }
    r := if id != [] then 0 else -1;
  }

  /** The last position that is not blank. */
  method TrimEnd(s: string, first: nat, end: nat) returns (last: nat)
    requires first <= end <= |s|
    ensures first <= last <= end && s[first..last] == Trim(s[first..end])
  {
    last := end;
    while last > first && IsBlank(s[last - 1])
      invariant first <= last <= end && Trim(s[first..last]) == Trim(s[first..end])
    {
      assert s[first..last][..last - first - 1] == s[first..last - 1];
      last := last - 1;
    }
  }

  /** The end of parse_container_meta: the id is cut out of the line. */
  method TakeId(s: string, first: nat) returns (r: Option<string>)
    requires first <= |s|
    ensures r == ParseLine(s[first..])
  {
    hide Skip, Trim, ValidId;
    var end := SkipWhile(NotNewline(), s, first);
    if end == |s| {
      return None;
    }
    var last := TrimEnd(s, first, end);
    var id := s[first..last];
    assert s[first..][..end - first] == s[first..end];
    if id == [] || |id| + 1 > RUNTIME_ID_MAX_LENGTH {
      return None;
    }
    var regt := CheckRuntimeId(id);
    return if regt == -1 then None else Some(id);
  }

  method TakeAfterWord(s: string, start: nat) returns (r: Option<string>)
    requires start <= |s|
    ensures r == ParseAfterWord(s[start..])
  {
    hide ParseLine, Skip;
    var first := SkipWhile(IsBlank, s, start);
    if first == |s| || s[first] != ':' {
      return None;
    }
    assert s[first..][1..] == s[first + 1..];
    first := SkipWhile(IsBlank, s, first + 1);
    if first == |s| {
      EmptyLine();
      return None;
    }
    r := TakeId(s, first);
  }

  lemma EmptyLine()
    ensures ParseLine([]).None?
  {
  }

  /** parse_container_meta */
  method ParseContainerMeta(s: string) returns (r: Option<string>)
    ensures r == Parse(s)
  {
    hide ParseAfterWord, Skip;
    var first := SkipWhile(IsSpace, s, 0);
    assert s[0..] == s;
    if first == |s| || s[first] != '#' {
      return None;
    }
    assert s[first..][1..] == s[first + 1..];
    first := SkipWhile(IsBlank, s, first + 1);
    if first == |s| || !(WORD <= s[first..]) {
      return None;
    }
    assert s[first..][|WORD|..] == s[first + |WORD|..];
    r := TakeAfterWord(s, first + |WORD|);
  }

  /** Printing an id and parsing it gives it back. */
  lemma PrintedParses(id: string, rest: string)
    requires ValidId(id) && |id| < RUNTIME_ID_MAX_LENGTH
    ensures Parse("# container: " + id + "\n" + rest) == Some(id)
  {
    hide Parse;
    var d := Declaration("", " ", "", " ", id, "", '\n', rest);
    DeclarationParses(d);
    assert d.Text() == "# container: " + id + "\n" + rest;
  }

  /** An id is returned exactly for declarations, and it is the id declared. */
  lemma ParsesDeclarations(s: string)
    ensures Parse(s).Some? <==> exists d: Declaration :: d.Proper() && d.Text() == s
    ensures forall d: Declaration | d.Proper() && d.Text() == s :: Parse(s) == Some(d.id)
  {
    hide Parse;
    forall d: Declaration | d.Proper() && d.Text() == s ensures Parse(s) == Some(d.id) {
      DeclarationParses(d);
    }
    if Parse(s).Some? {
      var d := ParsedIsDeclaration(s);
    }
  }
}
