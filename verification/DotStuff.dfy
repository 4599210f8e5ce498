/** The byte-stuffing of message bodies (section 3 of RFC 1939), a streaming transducer, and
    what it means: the lines of the body, each CRLF-terminated and dot-stuffed, then ".". */
module DotStuff {
  import opened Lines

  /** What the writer remembers between bytes. */
  datatype State = State(atLineStart: bool, lastByte: char)

  const START := State(true, '\0')

  /** At a line start the byte before was not CR: every reachable state is like this. */
  predicate Reachable(st: State) {
    st.atLineStart ==> st.lastByte != '\r'
  }

  /** The output for one input byte. */
  function Expand(st: State, b: char): string {
    if b == '\n' then (if st.lastByte == '\r' then "\n" else "\r\n")
    else if b != '\r' && st.atLineStart && b == '.' then ".."
    else [b]
  }

  function Next(b: char): State {
    State(b == '\n', b)
  }

  function After(st: State, s: string): State {
    if s == "" then st else Next(s[|s| - 1])
  }

  function Encode(st: State, s: string): string
    decreases |s|
  {
    if s == "" then "" else Expand(st, s[0]) + Encode(Next(s[0]), s[1..])
  }

  /** What closing the writer adds: the completion of the last line, then ".". */
  function Completion(st: State): string {
    if st.atLineStart then "" else if st.lastByte == '\r' then "\n" else CRLF
  }

  function Stuffed(body: string): string {
    Encode(START, body) + Completion(After(START, body)) + "." + CRLF
  }

  // ----- Streaming: any cut of the input gives the same output -----

  lemma {:induction false} EncodeConcat(st: State, a: string, b: string)
    ensures Encode(st, a + b) == Encode(st, a) + Encode(After(st, a), b)
    decreases |a|
  {
    if a == "" {
      assert a + b == b;
    } else {
      assert (a + b)[1..] == a[1..] + b;
      EncodeConcat(Next(a[0]), a[1..], b);
    }
  }

  lemma EncodeSnoc(st: State, s: string, k: nat)
    requires k < |s|
    ensures Encode(st, s[..k + 1]) == Encode(st, s[..k]) + Expand(After(st, s[..k]), s[k])
    ensures After(st, s[..k + 1]) == Next(s[k])
  {
    assert s[..k + 1] == s[..k] + [s[k]];
    EncodeConcat(st, s[..k], [s[k]]);
    assert Encode(After(st, s[..k]), [s[k]]) == Expand(After(st, s[..k]), s[k]) + "";
  }

  /** A prefix of the input gives a prefix of the output. */
  lemma EncodePrefix(st: State, s: string, k: nat)
    requires k <= |s|
    ensures Encode(st, s[..k]) <= Encode(st, s)
  {
    assert s == s[..k] + s[k..];
    EncodeConcat(st, s[..k], s[k..]);
  }

  // ----- Meaning: the transducer is the line-by-line stuffing -----

  function StuffLine(line: string): string {
    if line != "" && line[0] == '.' then "." + line else line
  }

  /** The client's inverse: one leading dot is removed. */
  function UnstuffLine(line: string): string {
    if line != "" && line[0] == '.' then line[1..] else line
  }

  function StuffAll(ls: seq<string>): (r: seq<string>)
    ensures |r| == |ls|
    ensures forall i :: 0 <= i < |ls| ==> r[i] == StuffLine(ls[i])
  {
    if ls == [] then [] else [StuffLine(ls[0])] + StuffAll(ls[1..])
  }

  function UnstuffAll(ls: seq<string>): (r: seq<string>)
    ensures |r| == |ls|
    ensures forall i :: 0 <= i < |ls| ==> r[i] == UnstuffLine(ls[i])
  {
    if ls == [] then [] else [UnstuffLine(ls[0])] + UnstuffAll(ls[1..])
  }

  /** A stuffed line is never the terminator, and unstuffing recovers the line. */
  lemma StuffedLine(line: string)
    ensures StuffLine(line) != "."
    ensures UnstuffLine(StuffLine(line)) == line
    ensures '\n' !in line ==> '\n' !in StuffLine(line)
    ensures |line| <= |StuffLine(line)| <= |line| + 1
  {
  }

  lemma UnstuffStuffAll(ls: seq<string>)
    ensures UnstuffAll(StuffAll(ls)) == ls
  {
    forall i | 0 <= i < |ls|
      ensures UnstuffAll(StuffAll(ls))[i] == ls[i]
    {
      StuffedLine(ls[i]);
    }
  }

  lemma {:induction false} EncodeInsideLine(st: State, s: string)
    requires !st.atLineStart
    requires '\n' !in s
    ensures Encode(st, s) == s
    decreases |s|
  {
    if s != "" {
      EncodeInsideLine(Next(s[0]), s[1..]);
    }
  }

  lemma EncodeOneLine(st: State, s: string)
    requires st.atLineStart
    requires '\n' !in s
    ensures Encode(st, s) == StuffLine(s)
  {
    if s != "" {
      EncodeInsideLine(Next(s[0]), s[1..]);
    }
  }

  /** A terminated line at a line start comes out stuffed, ended by exactly one CRLF. */
  lemma EncodeTerminatedLine(st: State, s: string)
    requires st.atLineStart && Reachable(st)
    requires '\n' !in s
    ensures Encode(st, s + "\n") == StuffLine(DropCR(s)) + CRLF
  {
    hide Encode, Expand, StuffLine, DropCR;
    EncodeConcat(st, s, "\n");
    EncodeOneLine(st, s);
    EncodeLF(After(st, s));
    if s != "" && s[|s| - 1] == '\r' {
      StuffedCR(s);
    } else {
      NoCR(st, s);
    }
  }

  lemma EncodeLF(st: State)
    ensures Encode(st, "\n") == if st.lastByte == '\r' then "\n" else CRLF
  {
  }

  lemma StuffedCR(s: string)
    requires s != "" && s[|s| - 1] == '\r'
    ensures StuffLine(s) == StuffLine(DropCR(s)) + "\r"
  {
    assert s == DropCR(s) + "\r";
  }

  lemma NoCR(st: State, s: string)
    requires st.atLineStart && Reachable(st)
    requires s == "" || s[|s| - 1] != '\r'
    ensures DropCR(s) == s && After(st, s).lastByte != '\r'
  {
  }

  lemma EncodeLastLine(st: State, s: string)
    requires st.atLineStart && Reachable(st)
    requires '\n' !in s
    requires s != ""
    ensures Encode(st, s) + Completion(After(st, s)) == StuffLine(DropCR(s)) + CRLF
  {
    EncodeOneLine(st, s);
  }

  lemma {:induction false} EncodeLines(st: State, body: string)
    requires st.atLineStart && Reachable(st)
    ensures Encode(st, body) + Completion(After(st, body)) == Block(StuffAll(LinesOf(body)))
    decreases |body|
  {
    hide Encode, Completion, StuffAll, StuffLine, DropCR, LinesOf;
    if body == "" {
      EncodeNothing(st);
    } else if !Terminated(body) {
      EncodeLastLine(st, body);
      OneLine(body);
    } else {
      TailShorter(body);
      EncodeLines(Next('\n'), Tail(body));
      EncodeFirstLine(st, body);
      LinesOfCons(body);
      BlockStuffCons(Head(body), LinesOf(Tail(body)));
    }
  }

  lemma EncodeNothing(st: State)
    requires st.atLineStart
    ensures Encode(st, "") + Completion(After(st, "")) == Block(StuffAll(LinesOf("")))
  {
  }

  lemma OneLine(body: string)
    requires body != "" && !Terminated(body)
    ensures Block(StuffAll(LinesOf(body))) == StuffLine(DropCR(body)) + CRLF
  {
    hide StuffLine, DropCR;
    assert LinesOf(body)[1..] == [];
  }

  lemma EncodeFirstLine(st: State, body: string)
    requires st.atLineStart && Reachable(st) && Terminated(body)
    ensures Encode(st, body) + Completion(After(st, body)) ==
            StuffLine(Head(body)) + CRLF
            + (Encode(Next('\n'), Tail(body)) + Completion(After(Next('\n'), Tail(body))))
  {
    hide Encode, Completion, StuffLine, DropCR;
    var s, rest := body[..LineEnd(body)], Tail(body);
    assert body == (s + "\n") + rest;
    EncodeConcat(st, s + "\n", rest);
    AfterConcat(st, s + "\n", rest);
    EncodeTerminatedLine(st, s);
  }

  lemma AfterConcat(st: State, a: string, b: string)
    ensures After(st, a + b) == After(After(st, a), b)
  {
    if b == "" {
      assert a + b == a;
    }
  }

  lemma BlockStuffCons(line: string, ls: seq<string>)
    ensures Block(StuffAll([line] + ls)) == StuffLine(line) + CRLF + Block(StuffAll(ls))
  {
    assert ([line] + ls)[1..] == ls;
    assert StuffAll([line] + ls)[1..] == StuffAll(ls);
  }

  /** The wire form of a body is its lines, stuffed and CRLF-terminated, then the terminator. */
  lemma StuffedIsLines(body: string)
    ensures Stuffed(body) == Block(StuffAll(LinesOf(body))) + "." + CRLF
  {
    EncodeLines(START, body);
  }

  /** What the client reconstructs: the body in CRLF-normal form, its last line completed. */
  function Normal(body: string): string {
    Block(LinesOf(body))
  }

  /** Normal form is a fixed point: a reconstructed body sent again is reconstructed as is. */
  lemma NormalIdempotent(body: string)
    ensures Normal(Normal(body)) == Normal(body)
  {
    LinesAreLines(body);
    LinesOfBlock(LinesOf(body));
  }

  /** Round trip and self-delimitation: for every body and all following bytes, reading the
      wire up to "." yields the body's lines and leaves exactly the following bytes. */
  lemma RoundTrip(max: int, body: string, rest: string)
    requires max >= 1
    requires forall l :: l in LinesOf(body) ==> |StuffLine(l)| <= max
    ensures ReadUntilDot(max, Stuffed(body) + rest) == Got(StuffAll(LinesOf(body)), rest)
    ensures Block(UnstuffAll(StuffAll(LinesOf(body)))) == Normal(body)
  {
    var ls := StuffAll(LinesOf(body));
    StuffedIsLines(body);
    LinesAreLines(body);
    forall i | 0 <= i < |ls|
      ensures '\n' !in ls[i] && ls[i] != "." && |ls[i]| <= max
    {
      assert LinesOf(body)[i] in LinesOf(body);
      StuffedLine(LinesOf(body)[i]);
    }
    ReadUntilDotBlock(max, ls, rest);
    assert Stuffed(body) + rest == Block(ls) + "." + CRLF + rest;
    UnstuffStuffAll(LinesOf(body));
  }

  // ----- Exact octet counts -----

  predicate BareLFAt(s: string, i: nat)
    requires i < |s|
  {
    s[i] == '\n' && (i == 0 || s[i - 1] != '\r')
  }

  predicate DotLineAt(s: string, i: nat)
    requires i < |s|
  {
    s[i] == '.' && (i == 0 || s[i - 1] == '\n')
  }

  /** The number of LFs among the first `n` bytes that are not preceded by CR. */
  function BareLFs(s: string, n: nat): nat
    requires n <= |s|
  {
    if n == 0 then 0 else BareLFs(s, n - 1) + if BareLFAt(s, n - 1) then 1 else 0
  }

  /** The number of LF-delimited lines that start with a dot within the first `n` bytes. */
  function DotLines(s: string, n: nat): nat
    requires n <= |s|
  {
    if n == 0 then 0 else DotLines(s, n - 1) + if DotLineAt(s, n - 1) then 1 else 0
  }

  function CompletionOctets(body: string): nat {
    if body == "" || body[|body| - 1] == '\n' then 0
    else if body[|body| - 1] == '\r' then 1
    else 2
  }

  lemma {:induction false} EncodeOctets(s: string, n: nat)
    requires n <= |s|
    ensures |Encode(START, s[..n])| == n + BareLFs(s, n) + DotLines(s, n)
  {
    if n == 0 {
      assert s[..0] == "";
    } else {
      EncodeOctets(s, n - 1);
      EncodeSnoc(START, s, n - 1);
      assert n >= 2 ==> s[..n - 1][n - 2] == s[n - 2];
    }
  }

  /** The number of lines that stuffing makes one byte longer. */
  function StuffedLines(ls: seq<string>): nat {
    if ls == [] then 0 else (if ls[0] != "" && ls[0][0] == '.' then 1 else 0) + StuffedLines(ls[1..])
  }

  lemma {:induction false} BlockOctets(ls: seq<string>)
    ensures |Block(StuffAll(ls))| == |Block(ls)| + StuffedLines(ls)
  {
    if ls != [] {
      BlockOctets(ls[1..]);
      assert StuffAll(ls)[1..] == StuffAll(ls[1..]);
    }
  }

  lemma {:induction false} DotLinesConcat(a: string, b: string, k: nat)
    requires a == "" || a[|a| - 1] == '\n'
    requires k <= |b|
    ensures DotLines(a + b, |a| + k) == DotLines(a, |a|) + DotLines(b, k)
  {
    if k == 0 {
      DotLinesPrefix(a, b, |a|);
    } else {
      DotLinesConcat(a, b, k - 1);
      assert (a + b)[|a| + k - 1] == b[k - 1];
      assert k > 1 ==> (a + b)[|a| + k - 2] == b[k - 2];
    }
  }

  lemma {:induction false} DotLinesPrefix(a: string, b: string, n: nat)
    requires n <= |a|
    ensures DotLines(a + b, n) == DotLines(a, n)
  {
    if n > 0 {
      DotLinesPrefix(a, b, n - 1);
    }
  }

  /** Without LF only the first byte can be a dot at a line start. */
  lemma {:induction false} DotLinesOneLine(s: string, n: nat)
    requires n <= |s| && |s| > 0
    requires '\n' !in s[..|s| - 1]
    ensures DotLines(s, n) == if n > 0 && s[0] == '.' then 1 else 0
  {
    if n > 0 {
      DotLinesOneLine(s, n - 1);
      if n > 1 {
        assert s[..|s| - 1][n - 2] == s[n - 2];
      }
    }
  }

  lemma {:induction false} DotLinesAreStuffedLines(body: string)
    ensures DotLines(body, |body|) == StuffedLines(LinesOf(body))
    decreases |body|
  {
    if body == "" {
    } else if !Terminated(body) {
      DotLinesOneLine(body, |body|);
      assert LinesOf(body)[1..] == [];
    } else {
      hide DotLines, LinesOf, Head, LineEnd;
      FirstLine(body);
      LinesOfCons(body);
      DotLinesAreStuffedLines(Tail(body));
      assert ([Head(body)] + LinesOf(Tail(body)))[1..] == LinesOf(Tail(body));
    }
  }

  lemma FirstLine(body: string)
    requires Terminated(body)
    ensures DotLines(body, |body|) ==
            (if Head(body) != "" && Head(body)[0] == '.' then 1 else 0) + DotLines(Tail(body), |Tail(body)|)
  {
    hide DotLines;
    var s, rest := body[..LineEnd(body)], Tail(body);
    DotLinesOfLine(s);
    assert body == (s + "\n") + rest;
    DotLinesConcat(s + "\n", rest, |rest|);
  }

  lemma DotLinesOfLine(s: string)
    requires '\n' !in s
    ensures DotLines(s + "\n", |s| + 1) == if DropCR(s) != "" && DropCR(s)[0] == '.' then 1 else 0
  {
    var a := s + "\n";
    assert a[..|a| - 1] == s;
    DotLinesOneLine(a, |a|);
  }

  /** The exact octet counts that announcing a body's size relies on. */
  lemma Octets(body: string)
    ensures |Stuffed(body)| ==
            |body| + BareLFs(body, |body|) + DotLines(body, |body|) + CompletionOctets(body) + 3
    ensures |Normal(body)| == |body| + BareLFs(body, |body|) + CompletionOctets(body)
  {
    assert body[..|body|] == body;
    EncodeOctets(body, |body|);
    StuffedIsLines(body);
    BlockOctets(LinesOf(body));
    DotLinesAreStuffedLines(body);
  }

  /** The size a server can announce without transforming the body is what the client
      reconstructs exactly when the body is empty or ends with LF; otherwise the completion of
      the last line comes on top. */
  lemma AnnouncedSize(body: string)
    ensures |Normal(body)| == |body| + BareLFs(body, |body|) <==> body == "" || body[|body| - 1] == '\n'
  {
    Octets(body);
  }
}
