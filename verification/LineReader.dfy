/** Bounded line reading over a buffered reader that may deliver a line in several chunks. */
module LineReader {
  import opened Lines

  /** A chunk cut off before the end of its line: it never parts a CR from its LF. */
  predicate PrefixChunk(chunk: string, rest: string) {
    && chunk != ""
    && '\n' !in chunk
    && (rest != "" && rest[0] == '\n' ==> chunk[|chunk| - 1] != '\r')
  }

  /** Cutting off a prefix chunk cuts the line's text there and nothing else. */
  lemma PrefixChunkHead(chunk: string, rest: string)
    requires PrefixChunk(chunk, rest)
    ensures Terminated(chunk + rest) <==> Terminated(rest)
    ensures Terminated(rest) ==> Head(chunk + rest) == chunk + Head(rest) && Tail(chunk + rest) == Tail(rest)
  {
    var i := LineEnd(rest);
    LineEndOf(chunk + rest, |chunk| + i);
    assert (chunk + rest)[..|chunk| + i] == chunk + rest[..i];
    if i < |rest| {
      assert (chunk + rest)[|chunk| + i + 1..] == rest[i + 1..];
    }
  }

  /** `acc` has been taken off the line so far, in prefix chunks only. */
  predicate Partial(s: string, acc: string, rest: string) {
    s == acc + rest && (acc == "" || PrefixChunk(acc, rest))
  }

  lemma PartialHead(s: string, acc: string, rest: string)
    requires Partial(s, acc, rest)
    ensures Terminated(s) <==> Terminated(rest)
    ensures Terminated(rest) ==> Head(s) == acc + Head(rest) && Tail(s) == Tail(rest)
  {
    if acc == "" {
      assert s == rest;
    } else {
      PrefixChunkHead(acc, rest);
    }
  }

  lemma PartialStep(s: string, acc: string, chunk: string, rest: string)
    requires Partial(s, acc, chunk + rest) && PrefixChunk(chunk, rest)
    ensures Partial(s, acc + chunk, rest)
  {
  }

  datatype ReadError = EndOfStream | LineTooLong

  /** Where a full buffer is cut: a CR at its end stays behind. */
  function CutAt(size: nat, s: string): (n: nat)
    requires 2 <= size <= |s|
    ensures size - 1 <= n <= size
  {
    if s[size - 1] == '\r' then size - 1 else size
  }

  /** What is in the buffer when a stream without a further LF has been read to its end. */
  function LastPiece(size: nat, s: string): string {
    if size < 2 || |s| < size then s else LastPiece(size, s[CutAt(size, s)..])
  }

  datatype Taken = Took(line: string, rest: string) | NoLine(error: ReadError)

  /** Taking one line off a stream, in all cases. An unterminated last line is handed out as a
      line, unless the stream ends just where the buffer was full: then it is lost. */
  function TakeLine(max: int, size: nat, s: string): Taken {
    match NextLine(max, s)
    case Line(text, rest) => Took(text, rest)
    case TooLong => NoLine(LineTooLong)
    case Unterminated =>
      if s == "" then NoLine(EndOfStream)
      else if |s| > max then NoLine(LineTooLong)
      else if LastPiece(size, s) == "" then NoLine(EndOfStream)
      else Took(s, "")
  }

  lemma TakenShorter(max: int, size: nat, s: string)
    ensures TakeLine(max, size, s).Took? ==> |TakeLine(max, size, s).rest| < |s|
  {
  }

  /** A buffered reader over the bytes still to come. */
  class BufReader {
    var rest: string
    const size: nat

    constructor (stream: string, size: nat)
      requires size >= 16
      ensures rest == stream && this.size == size
    {
      rest, this.size := stream, size;
    }

    /** One call of the buffered reader's ReadLine: the line without its ending when the LF
        is within the buffer; else a full buffer as a prefix chunk, a CR at its end being put
        back so that it is not parted from its LF; at the end of the stream what is left. */
    method ReadLine() returns (chunk: string, isPrefix: bool, eof: bool)
      requires size >= 16
      modifies this
      ensures |chunk| <= size
      ensures eof <==> old(rest) == ""
      ensures eof ==> rest == "" && chunk == "" && !isPrefix
      ensures isPrefix ==> PrefixChunk(chunk, rest) && old(rest) == chunk + rest
      ensures isPrefix ==> |old(rest)| >= size && |chunk| == old(CutAt(size, rest))
      ensures !isPrefix && !eof && old(Terminated(rest)) ==> chunk == old(Head(rest)) && rest == old(Tail(rest))
      ensures !isPrefix && !eof && !old(Terminated(rest)) ==> chunk == old(rest) && |chunk| < size && rest == ""
    {
      var i := LineEnd(rest);
      isPrefix, eof := false, false;
      if i < |rest| && i < size {
        chunk, rest := DropCR(rest[..i]), rest[i + 1..];
      } else if |rest| >= size {
        isPrefix := true;
        var n := CutAt(size, rest);
        chunk, rest := rest[..n], rest[n..];
      } else {
        eof := rest == "";
        chunk, rest := rest, "";
      }
    }
  }

  lemma NothingTaken(max: int, size: nat, s: string)
    ensures Midline(max, size, s, "", s)
  {
  }

  /** `acc` has been taken off the line so far, in full buffers only, and is within the limit. */
  predicate Midline(max: int, size: nat, s: string, acc: string, rest: string) {
    Partial(s, acc, rest) && LastPiece(size, rest) == LastPiece(size, s) && (acc != "" ==> |acc| <= max)
  }

  lemma AtEnd(max: int, size: nat, s: string, acc: string)
    requires Midline(max, size, s, acc, "")
    ensures TakeLine(max, size, s) == NoLine(EndOfStream)
  {
    PartialHead(s, acc, "");
    assert s == acc;
  }

  /** The last chunk of a line: up to its LF, or all that is left. */
  lemma LastChunk(max: int, size: nat, s: string, acc: string, rest: string)
    requires Midline(max, size, s, acc, rest) && rest != ""
    requires Terminated(rest) || |rest| < size
    ensures var chunk := if Terminated(rest) then Head(rest) else rest;
            TakeLine(max, size, s) ==
            if |acc + chunk| > max then NoLine(LineTooLong)
            else Took(acc + chunk, if Terminated(rest) then Tail(rest) else "")
  {
    hide Head, Tail, LineEnd;
    PartialHead(s, acc, rest);
  }

  /** A full buffer taken off the line. */
  lemma FullBuffer(max: int, size: nat, s: string, acc: string, rest: string)
    requires Midline(max, size, s, acc, rest) && 2 <= size <= |rest|
    requires PrefixChunk(rest[..CutAt(size, rest)], rest[CutAt(size, rest)..])
    ensures var chunk, more := rest[..CutAt(size, rest)], rest[CutAt(size, rest)..];
            if |acc + chunk| > max then TakeLine(max, size, s) == NoLine(LineTooLong)
            else Midline(max, size, s, acc + chunk, more)
  {
    hide LineEnd, Head, Tail;
    var chunk, more := rest[..CutAt(size, rest)], rest[CutAt(size, rest)..];
    assert rest == chunk + more;
    PartialStep(s, acc, chunk, more);
    PartialHead(s, acc + chunk, more);
  }

  /** The server's loop checks the limit after every prefix chunk and once more at the end.
      However the line is chunked, the result is that of splitting at LF, and what is
      accumulated never exceeds the limit by more than one chunk; what happens at the end of
      the stream is exact too. */
  method ServerReadLine(r: BufReader, maxLen: int) returns (line: string, err: Option<ReadError>, ghost peak: nat)
    requires r.size >= 16
    modifies r
    ensures match old(TakeLine(maxLen, r.size, r.rest))
            case Took(text, rest) => err == None && line == text && r.rest == rest
            case NoLine(e) => err == Some(e)
    ensures maxLen >= 0 ==> peak <= maxLen + r.size
  {
    hide TakeLine, Midline, PrefixChunk;
    ghost var s := r.rest;
    line, peak := "", 0;
    NothingTaken(maxLen, r.size, s);
    while true
      invariant Midline(maxLen, r.size, s, line, r.rest) && (line != "" ==> |line| <= maxLen)
      invariant maxLen >= 0 ==> peak <= maxLen + r.size
      decreases |r.rest|
    {
      ghost var acc, before := line, r.rest;
      var chunk, isPrefix, eof := r.ReadLine();
      if eof {
        AtEnd(maxLen, r.size, s, acc);
        return "", Some(EndOfStream), peak;
      }
      line := line + chunk;
      peak := if |line| > peak then |line| else peak;
      if isPrefix {
        assert before[..|chunk|] == chunk && before[|chunk|..] == r.rest;
        FullBuffer(maxLen, r.size, s, acc, before);
      } else {
        LastChunk(maxLen, r.size, s, acc, before);
      }
      if !isPrefix {
        break;
      }
      if |line| > maxLen {
        return "", Some(LineTooLong), peak;
      }
    }
    if |line| > maxLen {
      return "", Some(LineTooLong), peak;
    }
    err := None;
  }

  /** The client's loop checks the limit after every chunk: the same result. */
  method ClientReadLine(r: BufReader, maxLine: int) returns (line: string, err: Option<ReadError>, ghost peak: nat)
    requires r.size >= 16
    modifies r
    ensures match old(TakeLine(maxLine, r.size, r.rest))
            case Took(text, rest) => err == None && line == text && r.rest == rest
            case NoLine(e) => err == Some(e)
    ensures maxLine >= 0 ==> peak <= maxLine + r.size
  {
    hide TakeLine, Midline, PrefixChunk;
    ghost var s := r.rest;
    line, peak := "", 0;
    NothingTaken(maxLine, r.size, s);
    while true
      invariant Midline(maxLine, r.size, s, line, r.rest) && (line != "" ==> |line| <= maxLine)
      invariant maxLine >= 0 ==> peak <= maxLine + r.size
      decreases |r.rest|
    {
      ghost var acc, before := line, r.rest;
      var chunk, isPrefix, eof := r.ReadLine();
      if eof {
        AtEnd(maxLine, r.size, s, acc);
        return "", Some(EndOfStream), peak;
      }
      line := line + chunk;
      peak := if |line| > peak then |line| else peak;
      if isPrefix {
        assert before[..|chunk|] == chunk && before[|chunk|..] == r.rest;
        FullBuffer(maxLine, r.size, s, acc, before);
      } else {
        LastChunk(maxLine, r.size, s, acc, before);
      }
      if |line| > maxLine {
        return "", Some(LineTooLong), peak;
      }
      if !isPrefix {
        break;
      }
    }
    err := None;
  }
}
