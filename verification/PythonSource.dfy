/** The Python function text made from a function's name, arguments and source
    (src/pyclient/pycall.c). */
module PythonSource {
  import opened Basics

  predicate IsNewline(c: char) { c == '\n' || c == '\r' }

  /** The length of the line end at the head of s: CRLF, CR or LF. */
  function Ending(s: string): (n: nat)
    requires s != [] && IsNewline(s[0])
    ensures 0 < n <= |s|
  {
    if s[0] == '\r' && |s| > 1 && s[1] == '\n' then 2 else 1
  }

  /** The lines of a source, whatever its line ends. */
  function Lines(s: string): (ls: seq<string>)
    ensures ls != []
  {
    if s == [] then [[]]
    else if IsNewline(s[0]) then [[]] + Lines(s[Ending(s)..])
    else
      var ls := Lines(s[1..]);
      [[s[0]] + ls[0]] + ls[1..]
  }

  function Join(ls: seq<string>, sep: string): string
    requires ls != []
  {
    if |ls| == 1 then ls[0] else ls[0] + sep + Join(ls[1..], sep)
  }

  /** The body: every line but the first indented by one tab. */
  function Body(s: string): string { Join(Lines(s), "\n\t") }

  /** The source, character by character, with each CRLF, CR or LF written as one newline. */
  function Normalised(s: string): string {
    if s == [] then []
    else if s[0] == '\r' && |s| > 1 && s[1] == '\n' then ['\n'] + Normalised(s[2..])
    else [if s[0] == '\r' then '\n' else s[0]] + Normalised(s[1..])
  }

  function Arguments(args: seq<Option<string>>): (r: string)
    ensures |r| <= |args| + NamesLength(args)
  {
    if args == [] then []
    else
      var n := |args| - 1;
      Arguments(args[..n]) + if args[n].Some? then [','] + args[n].value else []
  }

  function NamesLength(args: seq<Option<string>>): nat {
    if args == [] then 0
    else
      var n := |args| - 1;
      NamesLength(args[..n]) + if args[n].Some? then |args[n].value| else 0
  }

  function Text(name: string, args: seq<Option<string>>, src: string): string {
    "def " + name + "(args" + Arguments(args) + "):\n\t" + Body(src) + "\n\n"
  }

  // ------------------------------------------------------- what the text is

  lemma {:induction false} LinesHaveNoEnds(s: string)
    ensures forall l | l in Lines(s) :: '\n' !in l && '\r' !in l
  {
    if s != [] {
      if IsNewline(s[0]) {
        LinesHaveNoEnds(s[Ending(s)..]);
      } else {
        LinesHaveNoEnds(s[1..]);
      }
    }
  }

  /** The named arguments, each after a comma, in order. */
  lemma {:induction false} ArgumentsInOrder(a: seq<Option<string>>, b: seq<Option<string>>, x: Option<string>)
    ensures Arguments(a + b) == Arguments(a) + Arguments(b)
    ensures Arguments([x]) == if x.Some? then "," + x.value else ""
    decreases |b|
  {
    assert [x][..0] == [];
    assert Arguments([x]) == [] + if x.Some? then [','] + x.value else [];
    if b == [] {
      assert a + b == a;
    } else {
      var n := |b| - 1;
      ArgumentsInOrder(a, b[..n], x);
      assert (a + b)[..|a| + n] == a + b[..n];
      var last := if b[n].Some? then [','] + b[n].value else [];
      assert Arguments(a) + Arguments(b[..n]) + last == Arguments(a) + (Arguments(b[..n]) + last);
    }
  }

  /** Removes one tab after every newline. */
  function Unindent(t: string): string {
    if t == [] then []
    else if t[0] == '\n' && |t| > 1 && t[1] == '\t' then ['\n'] + Unindent(t[2..])
    else [t[0]] + Unindent(t[1..])
  }

  lemma {:induction false} UnindentLine(l: string, t: string)
    requires '\n' !in l
    ensures Unindent(l + t) == l + Unindent(t)
  {
    if l == [] {
      assert l + t == t;
    } else {
      UnindentLine(l[1..], t);
      assert (l + t)[1..] == l[1..] + t;
    }
  }

  lemma {:induction false} UnindentJoin(ls: seq<string>)
    requires ls != [] && forall l | l in ls :: '\n' !in l
    ensures Unindent(Join(ls, "\n\t")) == Join(ls, "\n")
  {
    if |ls| == 1 {
      UnindentLine(ls[0], []);
      assert ls[0] + [] == ls[0];
    } else {
      var rest := Join(ls[1..], "\n\t");
      UnindentJoin(ls[1..]);
      UnindentLine(ls[0], "\n\t" + rest);
      assert ls[0] + "\n\t" + rest == ls[0] + ("\n\t" + rest);
      assert ("\n\t" + rest)[2..] == rest;
      assert ls[0] + "\n" + Join(ls[1..], "\n") == ls[0] + (['\n'] + Join(ls[1..], "\n"));
    }
  }

  lemma JoinCons(l: string, ls: seq<string>, sep: string)
    requires ls != []
    ensures Join([l] + ls, sep) == l + sep + Join(ls, sep)
  {
    assert ([l] + ls)[1..] == ls;
  }

  lemma JoinOfChar(s: string, sep: string)
    requires s != [] && !IsNewline(s[0])
    ensures Join(Lines(s), sep) == [s[0]] + Join(Lines(s[1..]), sep)
  {
    var ls := Lines(s[1..]);
    assert Lines(s) == [[s[0]] + ls[0]] + ls[1..];
    hide Lines;
    if |ls| > 1 {
      JoinCons([s[0]] + ls[0], ls[1..], sep);
      var rest := Join(ls[1..], sep);
      assert [s[0]] + ls[0] + sep + rest == [s[0]] + (ls[0] + sep + rest);
    }
  }

  lemma JoinOfEnd(s: string, sep: string)
    requires s != [] && IsNewline(s[0])
    ensures Join(Lines(s), sep) == sep + Join(Lines(s[Ending(s)..]), sep)
  {
    var ls := Lines(s[Ending(s)..]);
    assert Lines(s) == [[]] + ls;
    hide Lines, Join, Ending;
    JoinCons([], ls, sep);
    assert [] + sep == sep;
  }

  /** The lines are those between the newlines of the normalised source. */
  lemma {:induction false} LinesAreNormalised(s: string)
    ensures Join(Lines(s), "\n") == Normalised(s)
  {
    if s != [] {
      if IsNewline(s[0]) {
        JoinOfEnd(s, "\n");
        hide Lines, Join;
        LinesAreNormalised(s[Ending(s)..]);
      } else {
        JoinOfChar(s, "\n");
        hide Lines, Join;
        LinesAreNormalised(s[1..]);
      }
    }
  }

  /** Taking the added tabs away gives the source back, up to its line ends. */
  lemma BodyRecovers(src: string)
    ensures Unindent(Body(src)) == Normalised(src)
  {
    LinesHaveNoEnds(src);
    UnindentJoin(Lines(src));
    LinesAreNormalised(src);
  }

  // ------------------------------------------------------------- the buffer

  /** snprintf of a text that fits: the text and a terminator. */
  method Write(buf: array<char>, at: nat, text: string) returns (end: nat)
    requires at + |text| < buf.Length
    modifies buf
    ensures end == at + |text| && buf[..end] == old(buf[..at]) + text
  {
    end := at;
    for i := 0 to |text|
      invariant end == at + i && buf[..end] == old(buf[..at]) + text[..i]
    {
      buf[end] := text[i];
      end := end + 1;
    }
    buf[end] := '\0';
  }

  /** Copies the source, each line end as a newline and a tab. */
  method CopyBody(buf: array<char>, at: nat, src: string) returns (mp: nat)
    requires at + 2 * |src| <= buf.Length
    modifies buf
    ensures at <= mp <= at + 2 * |src| && buf[..mp] == old(buf[..at]) + Body(src)
  {
    ghost var before := buf[..at];
    var sp := 0;
    mp := at;
    assert src[0..] == src && before + Body(src) == buf[..mp] + Body(src);
    while sp < |src|
      invariant 0 <= sp <= |src| && at <= mp <= at + 2 * sp
      invariant buf[..mp] + Body(src[sp..]) == before + Body(src)
    {
      ghost var was := buf[..mp];
      ghost var left := src[sp..];
      if src[sp] == '\r' && sp + 1 < |src| && src[sp + 1] == '\n' {
        sp := sp + 1;
      }
      if src[sp] == '\n' || src[sp] == '\r' {
        buf[mp] := '\n';
        buf[mp + 1] := '\t';
        mp := mp + 2;
        sp := sp + 1;
        JoinOfEnd(left, "\n\t");
        assert src[sp..] == left[Ending(left)..];
        Assoc(was, ['\n', '\t'], Body(src[sp..]));
        assert buf[..mp] == was + ['\n', '\t'];
      } else {
        buf[mp] := src[sp];
        mp := mp + 1;
        sp := sp + 1;
        JoinOfChar(left, "\n\t");
        assert src[sp..] == left[1..];
        Assoc(was, [left[0]], Body(src[sp..]));
        assert buf[..mp] == was + [left[0]];
      }
    }
    assert buf[..mp] + Body(src[sp..]) == buf[..mp];
  }

  /** The length computed for the buffer. */
  function BufferLength(name: string, args: seq<Option<string>>, src: string): nat {
    5 + |name| + 6 + |src| * 2 + 3 + |args| + 5 + NamesLength(args) + 1
  }

  /** create_python_func: the whole text and its terminator lie inside the buffer. */
  method CreatePythonFunc(name: string, args: seq<Option<string>>, src: string) returns (mrc: array<char>, len: nat)
    ensures mrc.Length == BufferLength(name, args, src)
    ensures len + 1 <= mrc.Length && mrc[..len + 1] == Text(name, args, src) + ['\0']
  {
    var mlen := 5 + |name| + 6 + |src| * 2 + 3 + |args| + 5;
    for i := 0 to |args|
      invariant mlen == 5 + |name| + 6 + |src| * 2 + 3 + |args| + 5 + NamesLength(args[..i])
    {
      assert args[..i + 1][..i] == args[..i];
      if args[i].Some? {
        mlen := mlen + |args[i].value|;
      }
    }
    assert args[..|args|] == args;
    mlen := mlen + 1;
    mrc := new char[mlen];
    var mp := Head(mrc, name, args, src);
    mp := CopyBody(mrc, mp, src);
    mrc[mp], mrc[mp + 1], mrc[mp + 2] := '\n', '\n', '\0';
    len := mp + 2;
  }

  /** The def line. */
  method Head(mrc: array<char>, name: string, args: seq<Option<string>>, src: string) returns (mp: nat)
    requires mrc.Length == BufferLength(name, args, src)
    modifies mrc
    ensures mp + |src| * 2 + 3 <= mrc.Length
    ensures mrc[..mp] == "def " + name + "(args" + Arguments(args) + "):\n\t"
  {
    mp := Write(mrc, 0, "def " + name + "(args");
    mp := WriteArguments(mrc, mp, args);
    mp := Write(mrc, mp, "):\n\t");
  }

  method WriteArguments(mrc: array<char>, at: nat, args: seq<Option<string>>) returns (mp: nat)
    requires at + |args| + NamesLength(args) < mrc.Length
    modifies mrc
    ensures mp == at + |Arguments(args)| && mrc[..mp] == old(mrc[..at]) + Arguments(args)
  {
    hide NamesLength;
    mp := at;
    for i := 0 to |args|
      invariant at <= mp < mrc.Length && mrc[..mp] == old(mrc[..at]) + Arguments(args[..i])
    {
      assert args[..i + 1][..i] == args[..i];
      ArgumentsFit(args, i + 1);
      if args[i].Some? {
        mp := Write(mrc, mp, [','] + args[i].value);
      }
    }
    assert args[..|args|] == args;
  }

  lemma {:induction false} ArgumentsFit(args: seq<Option<string>>, n: nat)
    requires n <= |args|
    ensures |Arguments(args[..n])| <= |args| + NamesLength(args)
  {
    if n == |args| {
      assert args[..n] == args;
    } else {
      var m := |args| - 1;
      ArgumentsFit(args[..m], n);
      assert args[..m][..n] == args[..n];
    }
  }
}
