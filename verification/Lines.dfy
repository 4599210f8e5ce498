/** Lines as they travel on the wire.

    A byte is a `char` and a byte string a `string`: nothing in this project looks at the
    value of a byte above 127 except base64, so every statement made here for all strings
    holds in particular for all byte strings. */
module Lines {

  const CRLF := "\r\n"

  datatype Option<+T> = None | Some(value: T)

  /** The index of the first LF, or the length when there is none. */
  function LineEnd(s: string): (i: nat)
    ensures i <= |s|
    ensures forall k :: 0 <= k < i ==> s[k] != '\n'
    ensures i < |s| ==> s[i] == '\n'
  {
    if s == "" || s[0] == '\n' then 0 else 1 + LineEnd(s[1..])
  }

  predicate Terminated(s: string) {
    LineEnd(s) < |s|
  }

  /** The line less one trailing CR. */
  function DropCR(s: string): string {
    if s != "" && s[|s| - 1] == '\r' then s[..|s| - 1] else s
  }

  /** What one read of a line yields: the text up to the first LF, less one CR before it. */
  function Head(s: string): string {
    DropCR(s[..LineEnd(s)])
  }

  function Tail(s: string): string
    requires Terminated(s)
  {
    s[LineEnd(s) + 1..]
  }

  datatype LineResult = Line(text: string, rest: string) | TooLong | Unterminated

  /** Reading one line under a length limit. */
  function NextLine(max: int, s: string): LineResult {
    if !Terminated(s) then Unterminated
    else if |Head(s)| > max then TooLong
    else Line(Head(s), Tail(s))
  }

  lemma LineEndOf(s: string, i: nat)
    requires i <= |s|
    requires forall k :: 0 <= k < i ==> s[k] != '\n'
    requires i < |s| ==> s[i] == '\n'
    ensures LineEnd(s) == i
  {
  }

  /** A line written with CRLF is read back exactly, and the bytes after it stay unread;
      this holds even when the line itself ends in CR. */
  lemma ReadBack(line: string, rest: string)
    requires '\n' !in line
    ensures Terminated(line + CRLF + rest)
    ensures Head(line + CRLF + rest) == line
    ensures Tail(line + CRLF + rest) == rest
  {
    var s := line + CRLF + rest;
    LineEndOf(s, |line| + 1);
    assert s[..|line| + 1] == line + "\r";
  }

  lemma NextLineBack(max: int, line: string, rest: string)
    requires '\n' !in line
    ensures NextLine(max, line + CRLF + rest) == if |line| > max then TooLong else Line(line, rest)
  {
    ReadBack(line, rest);
  }

  /** Lines joined, each one terminated with CRLF. */
  function Block(ls: seq<string>): string {
    if ls == [] then "" else ls[0] + CRLF + Block(ls[1..])
  }

  lemma BlockConcat(a: seq<string>, b: seq<string>)
    ensures Block(a + b) == Block(a) + Block(b)
  {
    if a == [] {
      assert a + b == b;
    } else {
      assert (a + b)[1..] == a[1..] + b;
      BlockConcat(a[1..], b);
    }
  }

  /** The lines of a text: split at LF, one CR before each LF dropped; a last piece without
      LF is a line too, and loses one trailing CR likewise. */
  function LinesOf(s: string): seq<string>
    decreases |s|
  {
    if s == "" then []
    else if !Terminated(s) then [DropCR(s)]
    else [Head(s)] + LinesOf(Tail(s))
  }

  /** No line contains LF. */
  lemma LinesAreLines(s: string)
    ensures forall l :: l in LinesOf(s) ==> '\n' !in l
    decreases |s|
  {
    if s != "" && Terminated(s) {
      LinesAreLines(Tail(s));
    }
  }

  lemma LinesOfCons(s: string)
    requires Terminated(s)
    ensures LinesOf(s) == [Head(s)] + LinesOf(Tail(s))
  {
  }

  lemma HeadTailConcat(a: string, b: string)
    requires Terminated(a)
    ensures Terminated(a + b) && Head(a + b) == Head(a) && Tail(a + b) == Tail(a) + b
  {
    var i := LineEnd(a);
    LineEndOf(a + b, i);
    assert (a + b)[..i] == a[..i];
  }

  lemma EndsWithLF(a: string)
    requires a != "" && a[|a| - 1] == '\n'
    ensures Terminated(a) && (Tail(a) == "" || Tail(a)[|Tail(a)| - 1] == '\n')
  {
    assert LineEnd(a) <= |a| - 1;
  }

  lemma LinesOfNothing()
    ensures LinesOf("") == []
  {
  }

  lemma TailShorter(s: string)
    requires Terminated(s)
    ensures |Tail(s)| < |s|
  {
  }

  /** Cutting a text just after an LF cuts its list of lines in two. */
  lemma {:induction false} LinesConcat(a: string, b: string)
    requires a == "" || a[|a| - 1] == '\n'
    ensures LinesOf(a + b) == LinesOf(a) + LinesOf(b)
    decreases |a|
  {
    hide LinesOf, Head, LineEnd, Terminated;
    if a == "" {
      assert a + b == b;
      LinesOfNothing();
    } else {
      EndsWithLF(a);
      HeadTailConcat(a, b);
      LinesOfCons(a);
      LinesOfCons(a + b);
      TailShorter(a);
      LinesConcat(Tail(a), b);
      assert LinesOf(a + b) == [Head(a)] + (LinesOf(Tail(a)) + LinesOf(b));
    }
  }

  /** Texts made of CRLF-terminated lines and their lists of lines determine each other. */
  lemma {:induction false} LinesOfBlock(ls: seq<string>)
    requires forall l :: l in ls ==> '\n' !in l
    ensures LinesOf(Block(ls)) == ls
  {
    if ls != [] {
      ReadBack(ls[0], Block(ls[1..]));
      LinesOfBlock(ls[1..]);
    }
  }

  datatype Multi = Got(lines: seq<string>, rest: string) | Lost

  /** Reading lines up to the line ".", each within `max`. */
  function ReadUntilDot(max: int, s: string): Multi
    decreases |s|
  {
    match NextLine(max, s)
    case Line(text, rest) =>
      if text == "." then Got([], rest)
      else
        (match ReadUntilDot(max, rest)
         case Got(lines, r) => Got([text] + lines, r)
         case Lost => Lost)
    case TooLong => Lost
    case Unterminated => Lost
  }

  /** A block of lines none of which is ".", followed by the terminator, is read back
      exactly, whatever follows it. */
  lemma {:induction false} ReadUntilDotBlock(max: int, ls: seq<string>, rest: string)
    requires max >= 1
    requires forall i :: 0 <= i < |ls| ==> '\n' !in ls[i] && ls[i] != "." && |ls[i]| <= max
    ensures ReadUntilDot(max, Block(ls) + "." + CRLF + rest) == Got(ls, rest)
  {
    if ls == [] {
      assert Block(ls) + "." + CRLF + rest == "." + CRLF + rest;
      NextLineBack(max, ".", rest);
    } else {
      var r := Block(ls[1..]) + "." + CRLF + rest;
      var s := Block(ls) + "." + CRLF + rest;
      assert s == ls[0] + CRLF + r;
      NextLineBack(max, ls[0], r);
      ReadUntilDotBlock(max, ls[1..], rest);
      ReadUntilDotStep(max, s, ls[0], r, ls[1..], rest);
      assert [ls[0]] + ls[1..] == ls;
    }
  }

  lemma ReadUntilDotStep(max: int, s: string, line: string, r: string, ls: seq<string>, rest: string)
    requires NextLine(max, s) == Line(line, r) && line != "."
    requires ReadUntilDot(max, r) == Got(ls, rest)
    ensures ReadUntilDot(max, s) == Got([line] + ls, rest)
  {
  }
}
