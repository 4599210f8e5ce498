/** Truncation of a message to its headers and the first lines of its body. */
module Top {
  import opened Lines
  import opened DotStuff

  /** The index of the first occurrence of `pattern`, if any. */
  function Find(s: string, pattern: string): (r: Option<nat>)
    ensures r.Some? ==> r.value <= |s| && pattern <= s[r.value..]
    ensures r.Some? ==> forall k :: 0 <= k < r.value ==> !(pattern <= s[k..])
    ensures r.None? ==> forall k :: 0 <= k <= |s| ==> !(pattern <= s[k..])
    decreases |s|
  {
    assert s[0..] == s;
    if pattern <= s then Some(0)
    else if s == "" then None
    else
      var r := Find(s[1..], pattern);
      assert forall k :: 1 <= k <= |s| ==> s[k..] == s[1..][k - 1..];
      if r.None? then None else Some(r.value + 1)
  }

  const BLANK := "\r\n\r\n"

  /** The length of the header block with its blank line: up to the first CRLFCRLF, or, when
      there is none, the first LFLF. */
  function HeaderLength(data: string): (h: Option<nat>)
    ensures h.Some? ==> 0 < h.value <= |data| && data[h.value - 1] == '\n'
  {
    match Find(data, BLANK)
    case Some(i) => assert data[i..][3] == '\n'; Some(i + 4)
    case None =>
      match Find(data, "\n\n")
      case Some(i) => assert data[i..][1] == '\n'; Some(i + 2)
      case None => None
  }

  /** The first `n` LF-terminated lines, or all when there are fewer. */
  function TakeLines(body: string, n: int): string
    decreases |body|
  {
    if n <= 0 || body == "" then ""
    else if !Terminated(body) then body
    else body[..LineEnd(body) + 1] + TakeLines(Tail(body), n - 1)
  }

  function TopBytes(data: string, n: int): string {
    match HeaderLength(data)
    case None => data
    case Some(h) => data[..h] + TakeLines(data[h..], n)
  }

  /** The loop over the body computes the truncation. */
  method ComputeTop(data: string, n: int) returns (out: string)
    ensures out == TopBytes(data, n)
  {
    hide Find;
    var sep, sepLen := Find(data, "\r\n\r\n"), 4;
    if sep.None? {
      var i := Find(data, "\n\n");
      if i.Some? {
        sep, sepLen := i, 2;
      }
    }
    if sep.None? {
      return data;
    }
    out := data[..sep.value + sepLen];
    var body := data[sep.value + sepLen..];
    assert TopBytes(data, n) == out + TakeLines(body, n);
    if n <= 0 {
      assert out + "" == out;
      return;
    }
    var taken := TakeLoop(body, n);
    out := out + taken;
  }

  /** The loop that takes lines off the body until there are enough or none is left. */
  method TakeLoop(data: string, n: int) returns (out: string)
    requires n > 0
    ensures out == TakeLines(data, n)
  {
    hide TakeLines, Tail, LineEnd;
    out := "";
    var body, count := data, 0;
    while |body| > 0 && count < n
      invariant 0 <= count <= n
      invariant TakeLines(data, n) == out + TakeLines(body, n - count)
      decreases |body|
    {
      var idx := LineEnd(body);
      TakeStep(out, body, n - count);
      if idx == |body| {
        out := out + body;
        return;
      }
      out := out + body[..idx + 1];
      body := body[idx + 1..];
      count := count + 1;
    }
    TakeDone(out, body, n - count);
  }

  lemma TakeStep(out: string, body: string, n: int)
    requires n > 0 && body != ""
    ensures LineEnd(body) == |body| ==> out + TakeLines(body, n) == out + body
    ensures LineEnd(body) < |body| ==>
              out + TakeLines(body, n) ==
              (out + body[..LineEnd(body) + 1]) + TakeLines(body[LineEnd(body) + 1..], n - 1)
  {
    if Terminated(body) {
      TakeFirst(body, n);
      hide TakeLines, LineEnd;
      Associate(out, body[..LineEnd(body) + 1], TakeLines(Tail(body), n - 1));
    }
  }

  lemma Associate(a: string, b: string, c: string)
    ensures a + (b + c) == (a + b) + c
  {
  }

  lemma TakeDone(out: string, body: string, n: int)
    requires n <= 0 || body == ""
    ensures out + TakeLines(body, n) == out
  {
  }

  function Min(a: int, b: int): int {
    if a < b then a else b
  }

  function Max(a: int, b: int): int {
    if a > b then a else b
  }

  lemma {:induction false} TakeLinesLines(body: string, n: int)
    ensures LinesOf(TakeLines(body, n)) == LinesOf(body)[..Min(Max(n, 0), |LinesOf(body)|)]
    decreases |body|
  {
    hide LinesOf, TakeLines, Head, Tail;
    if n <= 0 || body == "" || !Terminated(body) {
      TakeAllOrNone(body, n);
    } else {
      TailShorter(body);
      TakeLinesLines(Tail(body), n - 1);
      TakeFirst(body, n);
      LinesConcat(body[..LineEnd(body) + 1], TakeLines(Tail(body), n - 1));
      OneTerminatedLine(body);
      LinesOfCons(body);
    }
  }

  lemma TakeAllOrNone(body: string, n: int)
    requires n <= 0 || body == "" || !Terminated(body)
    ensures LinesOf(TakeLines(body, n)) == LinesOf(body)[..Min(Max(n, 0), |LinesOf(body)|)]
  {
    hide Head, Tail;
  }

  lemma TakeFirst(body: string, n: int)
    requires n > 0 && Terminated(body)
    ensures TakeLines(body, n) == body[..LineEnd(body) + 1] + TakeLines(Tail(body), n - 1)
  {
  }

  lemma OneTerminatedLine(body: string)
    requires Terminated(body)
    ensures LinesOf(body[..LineEnd(body) + 1]) == [Head(body)]
  {
    var line := body[..LineEnd(body) + 1];
    LineEndOf(line, LineEnd(body));
    assert line[..LineEnd(body)] == body[..LineEnd(body)];
    assert Tail(line) == "";
  }

  /** How many lines TOP keeps: all when there is no blank line, else the header block with
      its blank line and as many body lines as asked for, as far as there are any. */
  function KeptLines(data: string, n: int): (k: nat)
    ensures k <= |LinesOf(data)|
  {
    match HeaderLength(data)
    case None => |LinesOf(data)|
    case Some(h) =>
      HeaderCut(data, h);
      |LinesOf(data[..h])| + Min(Max(n, 0), |LinesOf(data[h..])|)
  }

  lemma HeaderCut(data: string, h: nat)
    requires HeaderLength(data) == Some(h)
    ensures LinesOf(data) == LinesOf(data[..h]) + LinesOf(data[h..])
  {
    assert data == data[..h] + data[h..];
    LinesConcat(data[..h], data[h..]);
  }

  /** TOP yields the first lines of the message: truncation never cuts a line. */
  lemma TopLines(data: string, n: int)
    ensures LinesOf(TopBytes(data, n)) == LinesOf(data)[..KeptLines(data, n)]
  {
    match HeaderLength(data)
    case None =>
    case Some(h) =>
      HeaderCut(data, h);
      TopLinesAfterHeader(data[..h], data[h..], n);
  }

  lemma TopLinesAfterHeader(header: string, body: string, n: int)
    requires header != "" && header[|header| - 1] == '\n'
    ensures LinesOf(header + TakeLines(body, n)) ==
            (LinesOf(header) + LinesOf(body))[..|LinesOf(header)| + Min(Max(n, 0), |LinesOf(body)|)]
  {
    hide LinesOf, TakeLines;
    TakeLinesLines(body, n);
    LinesConcat(header, TakeLines(body, n));
  }

  /** The number of body lines: from here on TOP is the whole message. */
  function BodyLines(data: string): nat {
    match HeaderLength(data)
    case None => 0
    case Some(h) => |LinesOf(data[h..])|
  }

  /** After the whole pipeline of stuffing and unstuffing: TOP is a prefix of RETR, grows with
      `n`, and equals RETR exactly when `n` reaches the number of body lines. */
  lemma TopIsPrefixOfRetr(data: string, m: int, n: int)
    requires m <= n
    ensures Normal(TopBytes(data, m)) <= Normal(TopBytes(data, n)) <= Normal(data)
    ensures Normal(TopBytes(data, n)) == Normal(data) <==> Max(n, 0) >= BodyLines(data)
  {
    TopLines(data, m);
    TopLines(data, n);
    if HeaderLength(data).Some? {
      HeaderCut(data, HeaderLength(data).value);
    }
    var ls, i, j := LinesOf(data), KeptLines(data, m), KeptLines(data, n);
    BlockTake(ls[..j], i);
    BlockTake(ls, j);
    assert ls[..j][..i] == ls[..i];
  }

  lemma BlockTake(ls: seq<string>, k: nat)
    requires k <= |ls|
    ensures Block(ls[..k]) <= Block(ls)
    ensures Block(ls[..k]) == Block(ls) <==> k == |ls|
  {
    assert ls == ls[..k] + ls[k..];
    BlockConcat(ls[..k], ls[k..]);
  }

  // ----- The header boundary of CRLF-delimited messages -----

  /** The index of the first empty line, or the number of lines. */
  function FirstEmpty(ls: seq<string>): (k: nat)
    ensures k <= |ls|
    ensures forall i :: 0 <= i < k ==> ls[i] != ""
    ensures k < |ls| ==> ls[k] == ""
  {
    if ls == [] || ls[0] == "" then 0 else 1 + FirstEmpty(ls[1..])
  }

  predicate CleanLines(ls: seq<string>) {
    forall i :: 0 <= i < |ls| ==> '\r' !in ls[i] && '\n' !in ls[i]
  }

  lemma FindUnique(s: string, pattern: string, i: nat)
    requires i <= |s| && pattern != "" && pattern <= s[i..]
    requires forall k :: 0 <= k < i ==> !(pattern <= s[k..])
    ensures Find(s, pattern) == Some(i)
  {
    hide Find;
    var r := Find(s, pattern);
    assert r.Some?;
    assert i <= r.value <= i;
  }

  lemma FindNone(s: string, pattern: string)
    requires forall k :: 0 <= k <= |s| ==> !(pattern <= s[k..])
    ensures Find(s, pattern) == None
  {
    hide Find;
  }

  /** Whether the text goes on with an empty line. */
  lemma BlankAhead(ls: seq<string>)
    requires CleanLines(ls)
    ensures CRLF <= Block(ls) <==> ls != [] && ls[0] == ""
  {
    if ls != [] && ls[0] != "" {
      assert Block(ls)[0] == ls[0][0];
      assert ls[0][0] in ls[0];
    }
  }

  /** Within a non-empty line, and at its LF, there is no blank line. */
  lemma NoBlankInLine(line: string, rest: string, k: nat)
    requires '\r' !in line && '\n' !in line && k < |line| + 2 && k != |line|
    ensures !(BLANK <= (line + CRLF + rest)[k..])
  {
    var s := line + CRLF + rest;
    if k < |line| {
      assert s[k..][0] == line[k];
      assert line[k] in line;
    } else {
      assert s[k..][0] == '\n';
    }
  }

  lemma BlankAtEnd(line: string, rest: string)
    ensures BLANK <= (line + CRLF + rest)[|line|..] <==> CRLF <= rest
  {
    var t := (line + CRLF + rest)[|line|..];
    assert t == CRLF + rest;
    if CRLF <= rest {
      assert t[..4] == BLANK;
    }
    if BLANK <= t {
      assert rest[0] == t[2] && rest[1] == t[3];
    }
  }

  /** What does not start in the first line is found behind it. */
  lemma FindBehind(line: string, rest: string)
    requires '\r' !in line && '\n' !in line && !(CRLF <= rest)
    ensures Find(line + CRLF + rest, BLANK) == match Find(rest, BLANK)
                                               case None => None
                                               case Some(i) => Some(i + |line| + 2)
  {
    hide Find;
    var s, n := line + CRLF + rest, |line| + 2;
    BlankAtEnd(line, rest);
    forall k | 0 <= k < n
      ensures !(BLANK <= s[k..])
    {
      if k != |line| {
        NoBlankInLine(line, rest, k);
      }
    }
    forall k | n <= k <= |s|
      ensures s[k..] == rest[k - n..]
    {
    }
    match Find(rest, BLANK)
    case None => FindNone(s, BLANK);
    case Some(i) =>
      assert s[i + n..] == rest[i..];
      FindUnique(s, BLANK, i + n);
  }

  lemma FindInFirst(line: string, rest: string)
    requires '\r' !in line && '\n' !in line && CRLF <= rest
    ensures Find(line + CRLF + rest, BLANK) == Some(|line|)
  {
    hide Find;
    BlankAtEnd(line, rest);
    forall k | 0 <= k < |line|
      ensures !(BLANK <= (line + CRLF + rest)[k..])
    {
      NoBlankInLine(line, rest, k);
    }
    FindUnique(line + CRLF + rest, BLANK, |line|);
  }

  /** The length of the lines up to and with the first empty one. */
  function BlockUpTo(ls: seq<string>): nat {
    var k := FirstEmpty(ls);
    if k == |ls| then 0 else |Block(ls[..k + 1])|
  }

  lemma FirstEmptyLater(ls: seq<string>)
    requires ls != [] && ls[0] != ""
    ensures FirstEmpty(ls) == FirstEmpty(ls[1..]) + 1
  {
  }

  lemma BlockCons(ls: seq<string>)
    requires ls != []
    ensures |Block(ls)| == |ls[0]| + 2 + |Block(ls[1..])|
  {
  }

  lemma BlockUpToCons(ls: seq<string>)
    requires ls != [] && ls[0] != ""
    ensures FirstEmpty(ls) == FirstEmpty(ls[1..]) + 1
    ensures FirstEmpty(ls) < |ls| ==> BlockUpTo(ls) == |ls[0]| + 2 + BlockUpTo(ls[1..])
  {
    hide FirstEmpty, Block;
    FirstEmptyLater(ls);
    var k := FirstEmpty(ls[1..]);
    if k + 1 < |ls| {
      BlockCons(ls[..k + 2]);
      assert ls[..k + 2][1..] == ls[1..][..k + 1];
    }
  }

  /** The blank line is found at the end of the line before the first empty one. */
  lemma {:induction false} FindBlank(ls: seq<string>)
    requires CleanLines(ls) && ls != [] && ls[0] != ""
    ensures if FirstEmpty(ls) == |ls| then Find(Block(ls), BLANK) == None
            else BlockUpTo(ls) >= 4 && Find(Block(ls), BLANK) == Some(BlockUpTo(ls) - 4)
    decreases |ls|
  {
    hide Find, FirstEmpty, BlockUpTo;
    BlankAhead(ls[1..]);
    BlockUpToCons(ls);
    if |ls| == 1 {
      FindBehind(ls[0], "");
      FindNone("", BLANK);
    } else if ls[1] == "" {
      FindInFirst(ls[0], Block(ls[1..]));
      EmptyFirst(ls[1..]);
    } else {
      FindBlank(ls[1..]);
      FindBehind(ls[0], Block(ls[1..]));
    }
  }

  lemma EmptyFirst(ls: seq<string>)
    requires ls != [] && ls[0] == ""
    ensures FirstEmpty(ls) == 0 && BlockUpTo(ls) == 2
  {
    assert ls[..1][1..] == [];
    assert Block(ls[..1]) == "" + CRLF + "";
  }

  /** On a CRLF-delimited message whose first line is not empty TOP is what its users expect:
      the header lines, the empty line, and `n` lines of the body as far as there are so many;
      a message without an empty line is all headers. */
  lemma TopOfCleanMessage(ls: seq<string>, n: nat)
    requires CleanLines(ls) && ls != [] && ls[0] != ""
    ensures var k := FirstEmpty(ls);
            TopBytes(Block(ls), n) == Block(ls[..if k == |ls| then |ls| else Min(k + 1 + n, |ls|)])
  {
    hide FirstEmpty, Block, TakeLines, HeaderLength, TopBytes, CleanLines;
    var k := FirstEmpty(ls);
    CleanHeader(ls);
    TopCases(Block(ls), n);
    if k == |ls| {
      assert ls[..k] == ls;
    } else {
      CutAndTake(ls, k + 1, n);
    }
  }

  lemma TopCases(data: string, n: int)
    ensures HeaderLength(data) == None ==> TopBytes(data, n) == data
    ensures forall h :: HeaderLength(data) == Some(h) ==> TopBytes(data, n) == data[..h] + TakeLines(data[h..], n)
  {
    hide HeaderLength, TakeLines;
  }

  lemma CutAndTake(ls: seq<string>, k: nat, n: nat)
    requires CleanLines(ls) && k <= |ls|
    ensures |Block(ls[..k])| <= |Block(ls)|
    ensures var h := |Block(ls[..k])|;
            Block(ls)[..h] + TakeLines(Block(ls)[h..], n) == Block(ls[..Min(k + n, |ls|)])
  {
    hide Block, TakeLines;
    var header, body, j := ls[..k], ls[k..], Min(n, |ls| - k);
    CutBlock(ls, k);
    TakeLinesOfBlock(body, n);
    BlockConcat(header, body[..j]);
    assert header + body[..j] == ls[..k + j];
  }

  lemma CleanHeader(ls: seq<string>)
    requires CleanLines(ls) && ls != [] && ls[0] != ""
    ensures HeaderLength(Block(ls)) == if FirstEmpty(ls) == |ls| then None else Some(|Block(ls[..FirstEmpty(ls) + 1])|)
  {
    hide Find, FirstEmpty, Block;
    FindBlank(ls);
    if FirstEmpty(ls) == |ls| {
      NoBareBlank(ls);
    }
  }

  lemma CutBlock(ls: seq<string>, k: nat)
    requires k <= |ls|
    ensures |Block(ls[..k])| <= |Block(ls)|
    ensures Block(ls)[..|Block(ls[..k])|] == Block(ls[..k])
    ensures Block(ls)[|Block(ls[..k])|..] == Block(ls[k..])
  {
    hide Block;
    assert ls == ls[..k] + ls[k..];
    BlockConcat(ls[..k], ls[k..]);
  }

  lemma TakeOne(line: string, rest: string, n: nat)
    requires '\n' !in line && n > 0
    ensures TakeLines(line + CRLF + rest, n) == line + CRLF + TakeLines(rest, n - 1)
  {
    var s := line + CRLF + rest;
    LineEndOf(s, |line| + 1);
    assert s[..|line| + 2] == line + CRLF;
    assert Tail(s) == rest;
  }

  lemma {:induction false} TakeLinesOfBlock(ls: seq<string>, n: nat)
    requires CleanLines(ls)
    ensures TakeLines(Block(ls), n) == Block(ls[..Min(n, |ls|)])
    decreases |ls|
  {
    hide TakeLines, Block;
    TakeNothing(Block(ls));
    if ls == [] || n == 0 {
      assert ls[..0] == [];
      NoBlock(ls);
    } else {
      TakeOne(ls[0], Block(ls[1..]), n);
      TakeLinesOfBlock(ls[1..], n - 1);
      FirstOfBlock(ls);
      FirstOfBlock(ls[..Min(n, |ls|)]);
      assert ls[..Min(n, |ls|)][1..] == ls[1..][..Min(n - 1, |ls| - 1)];
    }
  }

  lemma TakeNothing(body: string)
    ensures TakeLines(body, 0) == "" && TakeLines("", 1) == ""
    ensures forall n: int :: TakeLines("", n) == ""
  {
  }

  lemma NoBlock(ls: seq<string>)
    ensures Block([]) == "" && (ls == [] ==> Block(ls) == "")
  {
  }

  lemma FirstOfBlock(ls: seq<string>)
    requires ls != []
    ensures Block(ls) == ls[0] + CRLF + Block(ls[1..])
  {
  }

  /** In CRLF-delimited lines no two LFs stand side by side. */
  lemma {:induction false} NoBareBlank(ls: seq<string>)
    requires CleanLines(ls)
    ensures Find(Block(ls), "\n\n") == None
  {
    hide Find;
    forall k | 0 <= k <= |Block(ls)|
      ensures !("\n\n" <= Block(ls)[k..])
    {
      if k + 1 < |Block(ls)| {
        NoDoubleLF(ls, k);
        assert Block(ls)[k..][0] == Block(ls)[k] && Block(ls)[k..][1] == Block(ls)[k + 1];
      }
    }
    FindNone(Block(ls), "\n\n");
  }

  lemma {:induction false} NoDoubleLF(ls: seq<string>, k: nat)
    requires CleanLines(ls) && k + 1 < |Block(ls)|
    ensures !(Block(ls)[k] == '\n' && Block(ls)[k + 1] == '\n')
    decreases |ls|
  {
    var line, rest := ls[0], Block(ls[1..]);
    if k < |line| {
      assert line[k] in line;
    } else if k >= |line| + 2 {
      NoDoubleLF(ls[1..], k - |line| - 2);
    } else if k == |line| + 1 && |ls| > 1 {
      assert rest[0] == (ls[1] + CRLF)[0];
      assert ls[1] != "" ==> ls[1][0] in ls[1];
    }
  }
}
