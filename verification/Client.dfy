/** The client as the program runs it: calls that write a command and read its response, and
    the reader that streams a body out of a response. */
module Client {
  import opened Lines
  import opened Text
  import opened Numbers
  import opened Sessions
  import opened DotStuff
  import opened LineReader
  import opened ClientReplies
  import opened Delivery
  import Base64
  import Sasl

  class Client {
    const reader: BufReader
    const maxLine: int
    const maxRespLines: int
    var written: string

    constructor (reader: BufReader, maxLine: int, maxRespLines: int)
      requires reader.size >= 16
      ensures this.reader == reader && this.maxLine == maxLine && this.maxRespLines == maxRespLines
      ensures written == ""
    {
      this.reader, this.maxLine, this.maxRespLines := reader, maxLine, maxRespLines;
      written := "";
    }

    function Bounds(): Limits {
      Limits(maxLine, maxRespLines, reader.size)
    }

    /** The bytes still to be read. */
    ghost function Unseen(): string
      reads reader
    {
      reader.rest
    }

    method WriteCmd(line: string)
      modifies this`written
      ensures written == old(written) + line + CRLF
    {
      written := written + (line + "\r\n");
    }

    method ReadLine() returns (line: string, err: Option<ReadError>)
      requires reader.size >= 16
      modifies reader
      ensures match old(TakeNext(Bounds(), Unseen()))
              case Took(text, rest) => err == None && line == text && Unseen() == rest
              case NoLine(e) => err == Some(e)
      ensures err == None ==> |Unseen()| < old(|Unseen()|)
    {
      TakenShorter(maxLine, reader.size, Unseen());
      var text, e, _ := ClientReadLine(reader, maxLine);
      line, err := text, e;
    }

    /** Reads lines up to ".", bounding their number. */
    method ReadMultiLine() returns (lines: seq<string>, failed: bool)
      requires reader.size >= 16
      modifies reader
      ensures match old(MultiLine(Bounds(), maxRespLines, Unseen()))
              case Got(ls, rest) => !failed && lines == ls && Unseen() == rest
              case Lost => failed
    {
      hide TakeNext, MultiLine, Onto;
      lines := [];
      ghost var start := MultiLine(Bounds(), maxRespLines, Unseen());
      NothingBefore(start);
      while true
        invariant start == Onto(lines, MultiLine(Bounds(), maxRespLines - |lines|, Unseen()))
        decreases |Unseen()|
      {
        OntoStep(Bounds(), lines, maxRespLines - |lines|, Unseen());
        var line, err := ReadLine();
        if err.Some? {
          return [], true;
        }
        if line == "." {
          return lines, false;
        }
        lines := lines + [UnstuffLine(line)];
        if |lines| > maxRespLines {
          return [], true;
        }
      }
    }

    /** Sends one command line and reads the status line. */
    method Cmd(line: string) returns (status: string, err: Option<ReadError>)
      requires reader.size >= 16
      modifies this`written, reader
      ensures written == old(written) + line + CRLF
      ensures match old(TakeNext(Bounds(), Unseen()))
              case Took(text, rest) => err == None && status == text && Unseen() == rest
              case NoLine(e) => err == Some(e)
    {
      WriteCmd(line);
      status, err := ReadLine();
    }

    /** The contract of every call: the command is written, and when the unread bytes hold a
        readable reply the result is the one read from them and exactly the reply is consumed. */
    method CmdExpectOK(line: string) returns (r: Option<Result<()>>)
      requires reader.size >= 16
      modifies this`written, reader
      ensures written == old(written) + line + CRLF
      ensures match old(OkReply(Bounds(), Unseen()))
              case Read(result, rest) => r == Some(result) && Unseen() == rest
              case Unreadable => r == None
    {
      var status, err := Cmd(line);
      if err.Some? {
        return None;
      }
      if !IsOK(status) {
        return Some(Refused(status));
      }
      r := Some(Value(()));
    }

    method Stat() returns (r: Option<Result<(int, int)>>)
      requires reader.size >= 16
      modifies this`written, reader
      ensures written == old(written) + "STAT" + CRLF
      ensures match old(StatReply(Bounds(), Unseen()))
              case Read(result, rest) => r == Some(result) && Unseen() == rest
              case Unreadable => r == None
    {
      var status, err := Cmd("STAT");
      if err.Some? {
        return None;
      }
      if !IsOK(status) {
        return Some(Refused(status));
      }
      var fields := Fields(status);
      if |fields| < 3 {
        return Some(Refused(status));
      }
      var count := Atoi(fields[1]);
      if count.None? {
        return Some(Refused(status));
      }
      var size := Atoi(fields[2]);
      if size.None? {
        return Some(Refused(status));
      }
      r := Some(Value((count.value, size.value)));
    }

    method List() returns (r: Option<Result<seq<Info>>>)
      requires reader.size >= 16
      modifies this`written, reader
      ensures written == old(written) + "LIST" + CRLF
      ensures match old(ListReply(Bounds(), Unseen()))
              case Read(result, rest) => r == Some(result) && Unseen() == rest
              case Unreadable => r == None
    {
      WriteCmd("LIST");
      var status, err := ReadLine();
      if err.Some? {
        return None;
      }
      if !IsOK(status) {
        return Some(Refused(status));
      }
      var lines, failed := ReadMultiLine();
      if failed {
        return None;
      }
      var parsed := ParseEntries(lines);
      r := Some(parsed);
    }

    method ListOne(msg: int) returns (r: Option<Result<Info>>)
      requires reader.size >= 16
      modifies this`written, reader
      ensures written == old(written) + ("LIST " + DecInt(msg)) + CRLF
      ensures match old(ListOneReply(Bounds(), Unseen()))
              case Read(result, rest) => r == Some(result) && Unseen() == rest
              case Unreadable => r == None
    {
      var status, err := Cmd("LIST " + DecInt(msg));
      if err.Some? {
        return None;
      }
      if !IsOK(status) {
        return Some(Refused(status));
      }
      var item := ParseNumSize(AfterOK(status));
      if item.None? {
        return Some(Refused(status));
      }
      r := Some(Value(item.value));
    }

    method Uidl() returns (r: Option<Result<seq<Uid>>>)
      requires reader.size >= 16
      modifies this`written, reader
      ensures written == old(written) + "UIDL" + CRLF
      ensures match old(UidlReply(Bounds(), Unseen()))
              case Read(result, rest) => r == Some(result) && Unseen() == rest
              case Unreadable => r == None
    {
      WriteCmd("UIDL");
      var status, err := ReadLine();
      if err.Some? {
        return None;
      }
      if !IsOK(status) {
        return Some(Refused(status));
      }
      var lines, failed := ReadMultiLine();
      if failed {
        return None;
      }
      var parsed := ParseUidEntries(lines);
      r := Some(parsed);
    }

    method UidlOne(msg: int) returns (r: Option<Result<Uid>>)
      requires reader.size >= 16
      modifies this`written, reader
      ensures written == old(written) + ("UIDL " + DecInt(msg)) + CRLF
      ensures match old(UidlOneReply(Bounds(), Unseen()))
              case Read(result, rest) => r == Some(result) && Unseen() == rest
              case Unreadable => r == None
    {
      var status, err := Cmd("UIDL " + DecInt(msg));
      if err.Some? {
        return None;
      }
      if !IsOK(status) {
        return Some(Refused(status));
      }
      var item := ParseNumUid(AfterOK(status));
      if item.None? {
        return Some(Refused(status));
      }
      r := Some(Value(item.value));
    }

    method Dele(msg: int) returns (r: Option<Result<()>>)
      requires reader.size >= 16
      modifies this`written, reader
      ensures written == old(written) + ("DELE " + DecInt(msg)) + CRLF
      ensures match old(OkReply(Bounds(), Unseen()))
              case Read(result, rest) => r == Some(result) && Unseen() == rest
              case Unreadable => r == None
    {
      r := CmdExpectOK("DELE " + DecInt(msg));
    }

    /** USER, and when that is accepted PASS: the two lines the server takes apart again. */
    method User(username: string, password: string) returns (r: Option<Result<()>>)
      requires reader.size >= 16
      modifies this`written, reader
      ensures match old(OkReply(Bounds(), Unseen()))
              case Read(Value(_), rest) =>
                && written == old(written) + UserLine(username) + CRLF + PassLine(password) + CRLF
                && (match OkReply(Bounds(), rest)
                    case Read(result, more) => r == Some(result) && Unseen() == more
                    case Unreadable => r == None)
              case Read(result, rest) =>
                written == old(written) + UserLine(username) + CRLF && r == Some(result) && Unseen() == rest
              case Unreadable => written == old(written) + UserLine(username) + CRLF && r == None
    {
      r := CmdExpectOK("USER " + username);
      if r.None? || !r.value.Value? {
        return;
      }
      r := CmdExpectOK("PASS " + password);
    }

    /** AUTH PLAIN with the initial response on the line. */
    method AuthPlain(credentials: Sasl.Credentials) returns (r: Option<Result<()>>)
      requires reader.size >= 16 && Base64.IsBytes(Sasl.Payload(credentials))
      modifies this`written, reader
      ensures written == old(written) + PlainLine(credentials) + CRLF
      ensures match old(OkReply(Bounds(), Unseen()))
              case Read(result, rest) => r == Some(result) && Unseen() == rest
              case Unreadable => r == None
    {
      var payload := credentials.identity + "\0" + credentials.username + "\0" + credentials.password;
      assert payload == Sasl.Payload(credentials);
      var enc := Base64.Encode(payload);
      r := CmdExpectOK("AUTH PLAIN " + enc);
    }

    /** Starts a retrieval. On success the reader returned stands at the start of the body, its
        guard armed; on a refusal or a failed read the guard has been released. */
    method Retrieve(cmd: string) returns (body: BodyReader?, status: Option<string>, ghost guard: Guard)
      requires reader.size >= 16
      modifies this`written, reader
      ensures written == old(written) + cmd + CRLF
      ensures fresh(guard) && guard.released == if body == null then 1 else 0
      ensures body != null ==>
                fresh(body) && body.guard == guard && body.Valid() && body.c == this && body.buf == "" && !body.done
      ensures match old(TakeNext(Bounds(), Unseen()))
              case Took(text, rest) =>
                status == Some(text) && Unseen() == rest && (body != null <==> IsOK(text))
              case NoLine(_) => status == None && body == null
    {
      var stop := new Guard();
      guard := stop;
      WriteCmd(cmd);
      var line, err := ReadLine();
      if err.Some? {
        stop.Release();
        return null, None, guard;
      }
      status := Some(line);
      if !IsOK(line) {
        stop.Release();
        return null, status, guard;
      }
      body := new BodyReader(this, stop);
    }
  }

  /** The client's loops over the lines of a listing. */
  method ParseEntries(lines: seq<string>) returns (r: Result<seq<Info>>)
    ensures r == ParseInfos(lines)
  {
    var items: seq<Info> := [];
    var i := 0;
    assert lines[0..] == lines;
    PrependNothing(ParseInfos(lines));
    while i < |lines|
      invariant i <= |lines|
      invariant ParseInfos(lines) == Prepend(items, ParseInfos(lines[i..]))
    {
      assert lines[i..][1..] == lines[i + 1..];
      var item := ParseNumSize(lines[i]);
      if item.None? {
        return Malformed(lines[i]);
      }
      Reassociate(items, item.value, ParseInfos(lines[i + 1..]));
      items := items + [item.value];
      i := i + 1;
    }
    assert lines[i..] == [] && items + [] == items;
    r := Value(items);
  }

  method ParseUidEntries(lines: seq<string>) returns (r: Result<seq<Uid>>)
    ensures r == ParseUids(lines)
  {
    var items: seq<Uid> := [];
    var i := 0;
    assert lines[0..] == lines;
    PrependNothing(ParseUids(lines));
    while i < |lines|
      invariant i <= |lines|
      invariant ParseUids(lines) == Prepend(items, ParseUids(lines[i..]))
    {
      assert lines[i..][1..] == lines[i + 1..];
      var item := ParseNumUid(lines[i]);
      if item.None? {
        return Malformed(lines[i]);
      }
      Reassociate(items, item.value, ParseUids(lines[i + 1..]));
      items := items + [item.value];
      i := i + 1;
    }
    assert lines[i..] == [] && items + [] == items;
    r := Value(items);
  }

  function Prepend<T>(items: seq<T>, r: Result<seq<T>>): Result<seq<T>> {
    match r
    case Value(more) => Value(items + more)
    case _ => r
  }

  lemma PrependNothing<T>(r: Result<seq<T>>)
    ensures Prepend([], r) == r
  {
    if r.Value? {
      assert [] + r.value == r.value;
    }
  }

  lemma Reassociate<T>(items: seq<T>, item: T, r: Result<seq<T>>)
    ensures r.Value? ==> Prepend(items, Value([item] + r.value)) == Prepend(items + [item], r)
  {
    if r.Value? {
      assert items + ([item] + r.value) == items + [item] + r.value;
    }
  }

  /** The lines read so far and those to come. */
  function Onto(lines: seq<string>, m: Multi): Multi {
    match m
    case Got(more, rest) => Got(lines + more, rest)
    case Lost => Lost
  }

  lemma OntoStep(lim: Limits, lines: seq<string>, left: int, s: string)
    ensures var m := Onto(lines, MultiLine(lim, left, s));
            match TakeNext(lim, s)
            case NoLine(_) => m == Lost
            case Took(text, rest) =>
              if text == "." then m == Got(lines, rest)
              else if left < 1 then m == Lost
              else m == Onto(lines + [UnstuffLine(text)], MultiLine(lim, left - 1, rest))
  {
    hide TakeNext, UnstuffLine;
    match TakeNext(lim, s)
    case NoLine(_) =>
    case Took(text, rest) =>
      if text == "." {
        assert lines + [] == lines;
      } else if left >= 1 {
        match MultiLine(lim, left - 1, rest)
        case Got(more, _) => assert lines + ([UnstuffLine(text)] + more) == lines + [UnstuffLine(text)] + more;
        case Lost =>
      }
  }

  lemma NothingBefore(m: Multi)
    ensures Onto([], m) == m
  {
  }

  /** The cancellation guard of a retrieval. */
  class Guard {
    var released: nat

    constructor ()
      ensures released == 0
    {
      released := 0;
    }

    method Release()
      modifies this
      ensures released == old(released) + 1
    {
      released := released + 1;
    }
  }

  datatype ReadOutcome = NoError | EndOfBody | Failed(error: ReadError)

  class BodyReader {
    const c: Client
    const guard: Guard
    var buf: string
    var done: bool
    var stop: Guard?

    constructor (c: Client, guard: Guard)
      requires c.reader.size >= 16 && guard.released == 0
      ensures this.c == c && this.guard == guard && buf == "" && !done && Valid()
    {
      this.c, this.guard, buf, done, stop := c, guard, "", false, guard;
    }

    /** The guard is released once the body is done, and not before. */
    ghost predicate Valid()
      reads this, guard
    {
      && c.reader.size >= 16
      && (done <==> stop == null)
      && (stop != null ==> stop == guard)
      && guard.released == if done then 1 else 0
    }

    /** The unread bytes hold the rest of the body with its terminator, in readable lines. */
    ghost predicate Complete()
      reads this, c.reader
    {
      !done ==> BodyLines(c.Bounds(), c.Unseen()).Got?
    }

    /** What is still to be delivered. */
    ghost function Remaining(): string
      requires Complete()
      reads this, c.reader
    {
      if done then buf else buf + BodyText(BodyLines(c.Bounds(), c.Unseen()).lines)
    }

    /** The bytes after the body. */
    ghost function Following(): string
      requires Complete()
      reads this, c.reader
    {
      if done then c.Unseen() else BodyLines(c.Bounds(), c.Unseen()).rest
    }

    method Finish()
      requires Valid()
      modifies this`done, this`stop, guard
      ensures Valid() && done
    {
      done := true;
      if stop != null {
        stop.Release();
        stop := null;
      }
    }

    /** One Read: what is delivered is the start of what remained, at least one byte unless the
        buffer is empty or the body has ended, and the bytes after the body stay where they are. */
    method Read(p: array<char>) returns (n: nat, err: ReadOutcome)
      requires Valid()
      modifies this`buf, this`done, this`stop, guard, c.reader, p
      ensures Valid() && n <= p.Length
      ensures err.Failed? ==> done && n == 0
      ensures err.NoError? && p.Length > 0 ==>
                |c.Unseen()| < old(|c.Unseen()|) || (|c.Unseen()| == old(|c.Unseen()|) && |buf| < old(|buf|))
      ensures old(Complete()) ==>
                && Complete() && Following() == old(Following())
                && !err.Failed?
                && (err.EndOfBody? <==> old(Remaining()) == "")
                && p[..n] + Remaining() == old(Remaining())
                && (n == 0 ==> err.EndOfBody? || p.Length == 0)
                && (err.EndOfBody? ==> n == 0 && done)
      ensures old(!Complete()) ==> err.Failed? || (err.NoError? && !Complete())
    {
      hide TakeNext, UnstuffAll, BodyText, BodyLines;
      NoText();
      while |buf| == 0
        invariant Valid() && |c.Unseen()| <= old(|c.Unseen()|)
        invariant |c.Unseen()| == old(|c.Unseen()|) ==> buf == old(buf)
        invariant old(Complete()) ==>
                    Complete() && Following() == old(Following()) && Remaining() == old(Remaining())
        invariant old(!Complete()) ==> !Complete()
        decreases |c.Unseen()|, |buf| == 0
      {
        if done {
          return 0, EndOfBody;
        }
        label start:
        var line, e := c.ReadLine();
        NextBodyLine(c.Bounds(), old@start(c.Unseen()));
        if e.Some? {
          Finish();
          return 0, Failed(e.value);
        }
        if line == "." {
          Finish();
          return 0, EndOfBody;
        }
        buf := UnstuffLine(line) + ['\r', '\n'];
        if old@start(Complete()) {
          assert Remaining() == old@start(Remaining());
        }
      }
      n := if p.Length < |buf| then p.Length else |buf|;
      forall i | 0 <= i < n {
        p[i] := buf[i];
      }
      assert p[..n] == buf[..n];
      assert buf == buf[..n] + buf[n..];
      buf := buf[n..];
      err := NoError;
    }

    /** Close drains the lines not read yet: the client stands just past the terminator. */
    method Close() returns (err: Option<ReadError>)
      requires Valid()
      modifies this`done, this`stop, guard, c.reader
      ensures Valid() && done && buf == old(buf)
      ensures old(Complete()) ==>
                && err == None && c.Unseen() == old(Following())
                && Complete() && Remaining() == buf && buf <= old(Remaining())
      ensures old(!Complete()) ==> err.Some?
    {
      hide TakeNext;
      while !done
        invariant Valid()
        invariant old(Complete()) ==> Complete() && Following() == old(Following())
        invariant old(!Complete()) ==> !Complete()
        decreases |c.Unseen()|, !done
      {
        var line, e := c.ReadLine();
        if e.Some? {
          Finish();
          return e;
        }
        if line == "." {
          Finish();
        }
      }
      Finish();
      err := None;
    }
  }

  lemma NoText()
    ensures BodyText([]) == ""
  {
  }

  /** One line of a body, whether or not the body is complete. */
  lemma NextBodyLine(lim: Limits, s: string)
    ensures var m := BodyLines(lim, s);
            match TakeNext(lim, s)
            case NoLine(_) => m == Lost
            case Took(text, rest) =>
              if text == "." then m == Got([], rest)
              else
                var more := BodyLines(lim, rest);
                (m.Got? <==> more.Got?)
                && (m.Got? ==> m.rest == more.rest
                               && BodyText(m.lines) == (UnstuffLine(text) + ['\r', '\n']) + BodyText(more.lines))
  {
    hide TakeNext;
    var m := BodyLines(lim, s);
    if m.Got? && TakeNext(lim, s).line != "." {
      var text, rest := TakeNext(lim, s).line, TakeNext(lim, s).rest;
      var more := BodyLines(lim, rest);
      assert m.lines == [text] + more.lines;
      assert m.lines[1..] == more.lines;
      assert UnstuffAll(m.lines)[1..] == UnstuffAll(more.lines);
    }
  }

  /** On the wire form of a body the reader has the body's normal form to deliver and stands
      before exactly the bytes that follow. */
  lemma BodyOnWire(b: BodyReader, body: string, following: string)
    requires !b.done && b.buf == "" && b.c.Unseen() == Stuffed(body) + following
    requires b.c.maxLine >= 1
    requires forall l :: l in LinesOf(body) ==> |StuffLine(l)| <= b.c.maxLine
    ensures b.Complete() && b.Remaining() == Normal(body) && b.Following() == following
  {
    RoundTrip(b.c.maxLine, body, following);
    BodyLinesGot(b.c.Bounds(), b.c.Unseen());
    assert "" + Normal(body) == Normal(body);
  }

  datatype Use = UseRead(size: nat) | UseClose

  method UseOnce(b: BodyReader, use: Use) returns (got: string, failed: bool)
    requires b.Valid()
    modifies b, b.guard, b.c.reader
    ensures b.Valid()
    ensures old(b.Complete()) ==>
              !failed && b.Complete() && b.Following() == old(b.Following())
              && got + b.Remaining() <= old(b.Remaining())
    ensures old(!b.Complete()) ==> failed || !b.Complete()
    ensures failed ==> b.done
  {
    hide BodyLines, BodyText;
    match use {
      case UseRead(size) =>
        var p := new char[size](_ => '\0');
        var n, err := b.Read(p);
        got, failed := p[..n], err.Failed?;
      case UseClose =>
        var err := b.Close();
        got, failed := "", err.Some?;
        if b.Complete() {
          assert "" + b.Remaining() == b.Remaining();
        }
    }
  }

  /** Any sequence of reads, with buffers of any sizes, and closes, with a final close: of a
      complete body the start is delivered, the client stands exactly at the bytes after the
      body; with an incomplete one some of them fails. Either way the guard has been released
      exactly once. */
  method UseBody(b: BodyReader, uses: seq<Use>) returns (got: string, failed: bool)
    requires b.Valid()
    modifies b, b.guard, b.c.reader
    ensures failed <==> old(!b.Complete())
    ensures !failed ==> got <= old(b.Remaining()) && b.c.Unseen() == old(b.Following())
    ensures b.done && b.guard.released == 1
  {
    hide BodyLines, BodyText, BodyReader.Complete, BodyReader.Remaining, BodyReader.Following;
    ghost var complete := b.Complete();
    ghost var all, following := if complete then b.Remaining() else "", if complete then b.Following() else "";
    got := "";
    var i := 0;
    while i < |uses|
      invariant i <= |uses|
      invariant b.Valid() && b.Complete() == complete
      invariant complete ==> b.Following() == following && got + b.Remaining() <= all
    {
      ghost var before := if complete then b.Remaining() else "";
      var part, bad := UseOnce(b, uses[i]);
      if bad {
        return got, true;
      }
      if complete {
        StillPrefix(got, part + b.Remaining(), before, all);
        assert got + (part + b.Remaining()) == got + part + b.Remaining();
      }
      got := got + part;
      i := i + 1;
    }
    var err := b.Close();
    failed := err.Some?;
  }

  /** Reading a body to its end through a buffer of any size delivers exactly its text; whether
      it succeeds or fails the guard is released exactly once. */
  method ReadAll(b: BodyReader, size: nat) returns (text: string, err: Option<ReadError>)
    requires b.Valid() && size > 0
    modifies b, b.guard, b.c.reader
    ensures old(b.Complete()) ==> text == old(b.Remaining()) && b.c.Unseen() == old(b.Following())
    ensures err == None <==> old(b.Complete())
    ensures b.done && b.guard.released == 1
  {
    hide BodyLines, BodyText;
    text := "";
    if b.Complete() {
      assert "" + b.Remaining() == b.Remaining();
    }
    while true
      invariant b.Valid()
      invariant old(b.Complete()) ==>
                  b.Complete() && b.Following() == old(b.Following()) && text + b.Remaining() == old(b.Remaining())
      invariant old(!b.Complete()) ==> !b.Complete()
      decreases |b.c.Unseen()|, |b.buf|
    {
      var p := new char[size](_ => '\0');
      ghost var complete, before := b.Complete(), if b.Complete() then b.Remaining() else "";
      var n, outcome := b.Read(p);
      if complete {
        Delivered(text, p[..n], b.Remaining(), before);
      }
      text := text + p[..n];
      if outcome.Failed? {
        return text, Some(outcome.error);
      }
      if outcome.EndOfBody? {
        break;
      }
    }
    assert text + "" == text;
    err := b.Close();
  }

  lemma Delivered(text: string, part: string, rest: string, before: string)
    requires part + rest == before
    ensures text + before == (text + part) + rest && |rest| == |before| - |part|
  {
  }

  /** A retrieval whose body is read to its end and closed. */
  method Fetch(c: Client, cmd: string, size: nat) returns (r: Option<Result<string>>)
    requires c.reader.size >= 16 && size > 0
    modifies c`written, c.reader
    ensures c.written == old(c.written) + cmd + CRLF
    ensures match old(BodyReply(c.Bounds(), c.Unseen()))
            case Read(result, rest) => r == Some(result) && c.Unseen() == rest
            case Unreadable => r == None
  {
    hide TakeNext, BodyLines, BodyText;
    var body, status, _ := c.Retrieve(cmd);
    if body == null {
      return if status.None? then None else Some(Refused(status.value));
    }
    ghost var m := BodyLines(c.Bounds(), c.Unseen());
    assert m.Got? ==> body.Remaining() == "" + BodyText(m.lines);
    assert m.Got? ==> body.Following() == m.rest;
    var text, err := ReadAll(body, size);
    assert m.Got? ==> text == BodyText(m.lines);
    r := if err.Some? then None else Some(Value(text));
  }

  /** A retrieval whose body is used in any way and closed before it need have been read to its
      end. */
  method FetchPart(c: Client, cmd: string, uses: seq<Use>) returns (r: Option<Result<string>>)
    requires c.reader.size >= 16
    modifies c`written, c.reader
    ensures c.written == old(c.written) + cmd + CRLF
    ensures match old(BodyReply(c.Bounds(), c.Unseen()))
            case Read(Value(text), rest) =>
              r.Some? && r.value.Value? && r.value.value <= text && c.Unseen() == rest
            case Read(result, rest) => r == Some(result) && c.Unseen() == rest
            case Unreadable => r == None
  {
    hide TakeNext, BodyLines, BodyText;
    var body, status, _ := c.Retrieve(cmd);
    if body == null {
      return if status.None? then None else Some(Refused(status.value));
    }
    ghost var m := BodyLines(c.Bounds(), c.Unseen());
    assert m.Got? ==> body.Remaining() == "" + BodyText(m.lines);
    assert m.Got? ==> body.Following() == m.rest;
    var text, failed := UseBody(body, uses);
    assert m.Got? ==> text <= BodyText(m.lines);
    r := if failed then None else Some(Value(text));
  }

  lemma StillPrefix(got: string, less: string, more: string, all: string)
    requires less <= more && got + more <= all
    ensures got + less <= all
  {
    assert got + less == (got + more)[..|got + less|];
  }
}
