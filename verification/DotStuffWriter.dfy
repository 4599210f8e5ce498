/** The streaming writer of bodies and the writer below it, which may fail at any byte. */
module DotStuffWriters {
  import opened Lines
  import opened DotStuff

  /** The underlying writer. With `room` it accepts that many bytes more and then fails;
      without, it is a buffer that takes everything. */
  class Sink {
    var out: string
    var room: Option<nat>

    constructor (room: Option<nat>)
      ensures out == "" && this.room == room
    {
      out, this.room := "", room;
    }

    predicate Fits(n: nat)
      reads this
    {
      room.Some? ==> n <= room.value
    }

    method Write(p: string) returns (n: nat, ok: bool)
      modifies this
      ensures ok == old(Fits(|p|))
      ensures n <= |p| && (n == |p| <==> ok)
      ensures old(room).Some? && !ok ==> n == old(room).value
      ensures out == old(out) + p[..n]
      ensures room == if old(room).None? then None else Some(old(room).value - n)
    {
      ok := room.None? || |p| <= room.value;
      n := if ok then |p| else room.value;
      out := out + p[..n];
      room := if room.None? then None else Some(room.value - n);
    }
  }

  /** What gets through of `full`: all of it, or the bytes that fit. */
  function Through(full: string, room: Option<nat>): string {
    if room.None? || |full| <= room.value then full else full[..room.value]
  }

  /** The room left after that. */
  function Left(full: string, room: Option<nat>): Option<nat> {
    if room.None? then None else if |full| <= room.value then Some(room.value - |full|) else Some(0)
  }

  class DotStuffWriter {
    const w: Sink
    var atLineStart: bool
    var lastByte: char

    constructor (w: Sink)
      ensures this.w == w && State() == START
    {
      this.w, atLineStart, lastByte := w, true, '\0';
    }

    function State(): State
      reads this
    {
      DotStuff.State(atLineStart, lastByte)
    }

    /** Writes the expansion of one byte and remembers the byte; on failure remembers nothing. */
    method WriteByte(b: char) returns (ok: bool)
      modifies this, w
      ensures ok == old(w.Fits(|Expand(State(), b)|))
      ensures State() == if ok then Next(b) else old(State())
      ensures w.out == old(w.out) + old(Through(Expand(State(), b), w.room))
      ensures w.room == old(Left(Expand(State(), b), w.room))
    {
      ghost var full, was, room := Expand(State(), b), w.out, w.room;
      ok := true;
      if b == '\n' {
        if lastByte != '\r' {
          var _, sent := w.Write("\r");
          ok := sent;
        }
        if ok {
          var _, sent := w.Write("\n");
          ok := sent;
        }
        if ok {
          atLineStart := true;
        }
      } else if b == '\r' {
        var _, sent := w.Write("\r");
        ok := sent;
        if ok {
          atLineStart := false;
        }
      } else {
        if atLineStart && b == '.' {
          var _, sent := w.Write(".");
          ok := sent;
        }
        if ok {
          var _, sent := w.Write([b]);
          ok := sent;
        }
        if ok {
          atLineStart := false;
        }
      }
      if ok {
        lastByte := b;
      }
      ghost var part := if room.None? || |full| <= room.value then full else full[..room.value];
      assert w.out == was + part;
      assert part == Through(full, room);
    }

    /** The streaming contract, with failures: `n` input bytes are fully processed, the fields
        are those after exactly these bytes, and below them the output is their encoding plus,
        on failure, a proper prefix of the next byte's expansion. What is sent on failure is
        exactly what the writer below had room for. */
    method Write(p: string) returns (n: nat, ok: bool)
      modifies this, w
      ensures n <= |p| && (ok <==> n == |p|)
      ensures State() == After(old(State()), p[..n])
      ensures ok == old(w.Fits(|Encode(State(), p)|))
      ensures w.out == old(w.out) + old(Through(Encode(State(), p), w.room))
      ensures w.room == old(Left(Encode(State(), p), w.room))
      ensures !ok ==> exists part ::
                part < Expand(After(old(State()), p[..n]), p[n]) &&
                w.out == old(w.out) + Encode(old(State()), p[..n]) + part
    {
      hide Encode, Expand, After, Next;
      ghost var st, was, room := State(), w.out, w.room;
      n := 0;
      NoInput(st);
      assert p[..0] == "";
      while n < |p|
        invariant n <= |p|
        invariant State() == After(st, p[..n])
        invariant w.out == was + Encode(st, p[..n])
        invariant old(w.Fits(|Encode(State(), p[..n])|))
        invariant w.room == Left(Encode(st, p[..n]), room)
      {
        EncodeSnoc(st, p, n);
        EncodePrefix(st, p, n + 1);
        ok := WriteByte(p[n]);
        if !ok {
          CutOff(Encode(st, p), Encode(st, p[..n]), Expand(After(st, p[..n]), p[n]), room.value);
          return;
        }
        n := n + 1;
      }
      assert p[..n] == p;
      ok := true;
    }

    /** Closing completes the last line and ends the body. */
    method Close() returns (ok: bool)
      modifies w
      ensures ok == old(w.Fits(|Completion(State()) + "." + CRLF|))
      ensures w.out == old(w.out) + Through(Completion(State()) + "." + CRLF, old(w.room))
      ensures w.room == Left(Completion(State()) + "." + CRLF, old(w.room))
    {
      ghost var full, was, room := Completion(State()) + "." + CRLF, w.out, w.room;
      ok := true;
      if !atLineStart {
        var term := "\r\n";
        if lastByte == '\r' {
          term := "\n";
        }
        var _, sent := w.Write(term);
        ok := sent;
      }
      assert full == (if atLineStart then "" else if lastByte == '\r' then "\n" else "\r\n") + ".\r\n";
      if ok {
        var _, sent := w.Write(".\r\n");
        ok := sent;
      }
      assert w.out == was + Through(full, room);
    }
  }

  /** A piece cut off within the whole is cut off where the whole is. */
  lemma CutOff(whole: string, done: string, piece: string, room: nat)
    requires done + piece <= whole && |done| <= room < |done| + |piece|
    ensures whole[..room] == done + piece[..room - |done|]
    ensures piece[..room - |done|] < piece
  {
  }

  lemma NoInput(st: State)
    ensures Encode(st, "") == "" && After(st, "") == st
  {
  }

  function Concat(chunks: seq<string>): string {
    if chunks == [] then "" else chunks[0] + Concat(chunks[1..])
  }

  lemma OneChunk(data: string)
    ensures Concat([data]) == data
  {
    assert [data][1..] == [];
    assert data + "" == data;
  }

  lemma ConcatSnoc(chunks: seq<string>, k: nat)
    requires k < |chunks|
    ensures Concat(chunks[..k + 1]) == Concat(chunks[..k]) + chunks[k]
  {
    if k == 0 {
      assert chunks[..1] == [chunks[0]];
      assert Concat(chunks[..1]) == chunks[0] + "";
    } else {
      ConcatSnoc(chunks[1..], k - 1);
      assert chunks[..k + 1][1..] == chunks[1..][..k];
      assert chunks[..k][1..] == chunks[1..][..k - 1];
    }
  }

  /** Copying a body to the writer chunk by chunk: the cut into chunks leaves no trace, neither
      in what is sent, whether or not the writer below fails, nor in how much of the body has
      been processed. */
  method CopyBody(d: DotStuffWriter, chunks: seq<string>) returns (ok: bool, ghost k: nat)
    modifies d, d.w
    ensures ok == old(d.w.Fits(|Encode(d.State(), Concat(chunks))|))
    ensures d.w.out == old(d.w.out) + old(Through(Encode(d.State(), Concat(chunks)), d.w.room))
    ensures d.w.room == old(Left(Encode(d.State(), Concat(chunks)), d.w.room))
    ensures k <= |Concat(chunks)| && (ok <==> k == |Concat(chunks)|)
    ensures d.State() == After(old(d.State()), if ok then Concat(chunks) else Concat(chunks)[..k])
  {
    hide Encode, Concat, After;
    NothingSent(d.State(), chunks);
    ghost var st, was, room := d.State(), d.w.out, d.w.room;
    ghost var sent := "";
    var i := 0;
    while i < |chunks|
      invariant i <= |chunks|
      invariant sent == Encode(st, Concat(chunks[..i]))
      invariant d.State() == After(st, Concat(chunks[..i]))
      invariant d.w.out == was + sent
      invariant room.Some? ==> |sent| <= room.value
      invariant d.w.room == Left(sent, room)
    {
      CopyStep(st, chunks, i);
      ghost var next := Encode(d.State(), chunks[i]);
      var n, through := d.Write(chunks[i]);
      if !through {
        k := StopWithin(st, chunks, i, n);
        CutOff(Encode(st, Concat(chunks)), sent, next, room.value);
        return false, k;
      }
      assert chunks[i][..n] == chunks[i];
      sent := sent + next;
      i := i + 1;
    }
    assert chunks[..i] == chunks;
    ok, k := true, |Concat(chunks)|;
  }

  /** The position in the body of byte `n` of chunk `i`. */
  ghost method StopWithin(st: State, chunks: seq<string>, i: nat, n: nat) returns (k: nat)
    requires i < |chunks| && n < |chunks[i]|
    ensures k < |Concat(chunks)|
    ensures After(st, Concat(chunks)[..k]) == After(After(st, Concat(chunks[..i])), chunks[i][..n])
  {
    hide After;
    k := |Concat(chunks[..i])| + n;
    ConcatSplit(chunks, i + 1);
    ConcatSnoc(chunks, i);
    assert Concat(chunks)[..k] == Concat(chunks[..i]) + chunks[i][..n];
    AfterConcat(st, Concat(chunks[..i]), chunks[i][..n]);
  }

  lemma NothingSent(st: State, chunks: seq<string>)
    ensures Encode(st, Concat(chunks[..0])) == "" && After(st, Concat(chunks[..0])) == st
  {
  }

  lemma CopyStep(st: State, chunks: seq<string>, k: nat)
    requires k < |chunks|
    ensures Encode(st, Concat(chunks[..k + 1])) ==
            Encode(st, Concat(chunks[..k])) + Encode(After(st, Concat(chunks[..k])), chunks[k])
    ensures After(st, Concat(chunks[..k + 1])) == After(After(st, Concat(chunks[..k])), chunks[k])
    ensures Encode(st, Concat(chunks[..k + 1])) <= Encode(st, Concat(chunks))
  {
    ConcatSnoc(chunks, k);
    EncodeConcat(st, Concat(chunks[..k]), chunks[k]);
    AfterConcat(st, Concat(chunks[..k]), chunks[k]);
    ConcatSplit(chunks, k + 1);
    EncodeConcat(st, Concat(chunks[..k + 1]), Concat(chunks[k + 1..]));
  }

  lemma ConcatCons(chunks: seq<string>)
    ensures chunks != [] ==> Concat(chunks) == chunks[0] + Concat(chunks[1..])
    ensures chunks == [] ==> Concat(chunks) == ""
  {
  }

  lemma ConcatSplit(chunks: seq<string>, k: nat)
    requires k <= |chunks|
    ensures Concat(chunks) == Concat(chunks[..k]) + Concat(chunks[k..])
  {
    hide Concat;
    ConcatCons(chunks[..k]);
    if k == 0 {
      assert chunks[0..] == chunks;
    } else {
      ConcatCons(chunks);
      ConcatSplit(chunks[1..], k - 1);
      assert chunks[..k][1..] == chunks[1..][..k - 1];
      assert chunks[1..][k - 1..] == chunks[k..];
    }
  }
}
