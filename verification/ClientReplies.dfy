/** What the client makes of the bytes it receives: for each call, the result read from the
    unread bytes and the bytes left unread after it. */
module ClientReplies {
  import opened Lines
  import opened Text
  import opened Numbers
  import opened Sessions
  import opened DotStuff
  import opened LineReader

  /** The client's limits: on a line, on the lines of a listing, and the size of its buffer. */
  datatype Limits = Limits(line: int, lines: int, buffer: nat)

  function TakeNext(lim: Limits, s: string): Taken {
    TakeLine(lim.line, lim.buffer, s)
  }

  /** The outcome of a call: a value, a protocol error carrying the status line, or an entry
      that could not be parsed. */
  datatype Result<+T> = Value(value: T) | Refused(status: string) | Malformed(line: string)

  /** A reply that could be read, with the bytes left, or a read that failed: the stream ended,
      a line was too long or a listing had too many. */
  datatype Reading<+T> = Read(result: Result<T>, rest: string) | Unreadable

  predicate IsOK(line: string) {
    "+OK" <= line
  }

  function ParseTotals(status: string): Option<(int, int)> {
    var fields := Fields(status);
    if |fields| < 3 then None
    else
      match Atoi(fields[1])
      case None => None
      case Some(count) =>
        match Atoi(fields[2])
        case None => None
        case Some(size) => Some((count, size))
  }

  function ParseNumSize(line: string): Option<Info> {
    var fields := Fields(line);
    if |fields| < 2 then None
    else
      match Atoi(fields[0])
      case None => None
      case Some(num) =>
        match Atoi(fields[1])
        case None => None
        case Some(size) => Some(Info(num, size))
  }

  function ParseNumUid(line: string): Option<Uid> {
    var fields := Fields(line);
    if |fields| < 2 then None
    else
      match Atoi(fields[0])
      case None => None
      case Some(num) => Some(Uid(num, fields[1]))
  }

  /** The status line without its "+OK", trimmed. */
  function AfterOK(status: string): string {
    TrimSpace(if IsOK(status) then status[3..] else status)
  }

  function OkReply(lim: Limits, s: string): Reading<()> {
    match TakeNext(lim, s)
    case Took(status, rest) => Read(if IsOK(status) then Value(()) else Refused(status), rest)
    case NoLine(_) => Unreadable
  }

  function StatResult(status: string): Result<(int, int)> {
    if !IsOK(status) then Refused(status)
    else if ParseTotals(status).None? then Refused(status)
    else Value(ParseTotals(status).value)
  }

  function StatReply(lim: Limits, s: string): Reading<(int, int)> {
    match TakeNext(lim, s)
    case Took(status, rest) => Read(StatResult(status), rest)
    case NoLine(_) => Unreadable
  }

  function ListOneResult(status: string): Result<Info> {
    if !IsOK(status) then Refused(status)
    else if ParseNumSize(AfterOK(status)).None? then Refused(status)
    else Value(ParseNumSize(AfterOK(status)).value)
  }

  function ListOneReply(lim: Limits, s: string): Reading<Info> {
    match TakeNext(lim, s)
    case Took(status, rest) => Read(ListOneResult(status), rest)
    case NoLine(_) => Unreadable
  }

  function UidlOneResult(status: string): Result<Uid> {
    if !IsOK(status) then Refused(status)
    else if ParseNumUid(AfterOK(status)).None? then Refused(status)
    else Value(ParseNumUid(AfterOK(status)).value)
  }

  function UidlOneReply(lim: Limits, s: string): Reading<Uid> {
    match TakeNext(lim, s)
    case Took(status, rest) => Read(UidlOneResult(status), rest)
    case NoLine(_) => Unreadable
  }

  /** The lines of a multi-line response, unstuffed; more than `left` of them are too many. */
  function MultiLine(lim: Limits, left: int, s: string): Multi
    decreases |s|
  {
    TakenShorter(lim.line, lim.buffer, s);
    match TakeNext(lim, s)
    case NoLine(_) => Lost
    case Took(text, rest) =>
      if text == "." then Got([], rest)
      else if left < 1 then Lost
      else
        (match MultiLine(lim, left - 1, rest)
         case Got(lines, r) => Got([UnstuffLine(text)] + lines, r)
         case Lost => Lost)
  }

  /** The lines of a body as they come, however many. */
  function BodyLines(lim: Limits, s: string): Multi
    decreases |s|
  {
    TakenShorter(lim.line, lim.buffer, s);
    match TakeNext(lim, s)
    case NoLine(_) => Lost
    case Took(text, rest) =>
      if text == "." then Got([], rest)
      else
        (match BodyLines(lim, rest)
         case Got(lines, r) => Got([text] + lines, r)
         case Lost => Lost)
  }

  /** On a complete stream the buffered reader does not show: lines are what they are. */
  lemma NextIsLine(lim: Limits, s: string)
    requires NextLine(lim.line, s).Line?
    ensures TakeNext(lim, s) == Took(NextLine(lim.line, s).text, NextLine(lim.line, s).rest)
  {
  }

  lemma {:induction false} BodyLinesGot(lim: Limits, s: string)
    requires ReadUntilDot(lim.line, s).Got?
    ensures BodyLines(lim, s) == ReadUntilDot(lim.line, s)
    decreases |s|
  {
    hide TakeNext, NextLine;
    ShorterLine(lim.line, s);
    NextIsLine(lim, s);
    var l := NextLine(lim.line, s);
    if l.text != "." {
      BodyLinesGot(lim, l.rest);
    }
  }

  lemma ShorterLine(max: int, s: string)
    requires ReadUntilDot(max, s).Got?
    ensures NextLine(max, s).Line? && |NextLine(max, s).rest| < |s|
  {
  }

  lemma {:induction false} MultiLineGot(lim: Limits, left: int, s: string)
    requires ReadUntilDot(lim.line, s).Got? && |ReadUntilDot(lim.line, s).lines| <= left
    ensures MultiLine(lim, left, s) ==
            Got(UnstuffAll(ReadUntilDot(lim.line, s).lines), ReadUntilDot(lim.line, s).rest)
    decreases |s|
  {
    hide TakeNext, NextLine;
    ShorterLine(lim.line, s);
    NextIsLine(lim, s);
    var l := NextLine(lim.line, s);
    if l.text != "." {
      MultiLineGot(lim, left - 1, l.rest);
      var more := ReadUntilDot(lim.line, l.rest).lines;
      assert ([l.text] + more)[1..] == more;
    }
  }

  /** One line more than allowed fails the whole listing. */
  lemma {:induction false} TooManyLines(lim: Limits, left: nat, s: string)
    requires ReadUntilDot(lim.line, s).Got? && |ReadUntilDot(lim.line, s).lines| > left
    ensures MultiLine(lim, left, s) == Lost
    decreases |s|
  {
    hide TakeNext, NextLine;
    ShorterLine(lim.line, s);
    NextIsLine(lim, s);
    var l := NextLine(lim.line, s);
    if l.text != "." && left > 0 {
      TooManyLines(lim, left - 1, l.rest);
    }
  }

  function ParseInfos(lines: seq<string>): Result<seq<Info>> {
    if lines == [] then Value([])
    else
      match ParseNumSize(lines[0])
      case None => Malformed(lines[0])
      case Some(i) =>
        match ParseInfos(lines[1..])
        case Value(more) => Value([i] + more)
        case Refused(x) => Refused(x)
        case Malformed(x) => Malformed(x)
  }

  function ParseUids(lines: seq<string>): Result<seq<Uid>> {
    if lines == [] then Value([])
    else
      match ParseNumUid(lines[0])
      case None => Malformed(lines[0])
      case Some(u) =>
        match ParseUids(lines[1..])
        case Value(more) => Value([u] + more)
        case Refused(x) => Refused(x)
        case Malformed(x) => Malformed(x)
  }

  function ListReply(lim: Limits, s: string): Reading<seq<Info>> {
    match TakeNext(lim, s)
    case Took(status, rest) =>
      if !IsOK(status) then Read(Refused(status), rest)
      else
        (match MultiLine(lim, lim.lines, rest)
         case Got(lines, r) => Read(ParseInfos(lines), r)
         case Lost => Unreadable)
    case NoLine(_) => Unreadable
  }

  function UidlReply(lim: Limits, s: string): Reading<seq<Uid>> {
    match TakeNext(lim, s)
    case Took(status, rest) =>
      if !IsOK(status) then Read(Refused(status), rest)
      else
        (match MultiLine(lim, lim.lines, rest)
         case Got(lines, r) => Read(ParseUids(lines), r)
         case Lost => Unreadable)
    case NoLine(_) => Unreadable
  }

  /** The bytes of a body: its lines unstuffed, each CRLF-terminated. */
  function BodyText(lines: seq<string>): string {
    Block(UnstuffAll(lines))
  }

  /** A retrieval whose body is read to its end. */
  function BodyReply(lim: Limits, s: string): Reading<string> {
    match TakeNext(lim, s)
    case Took(status, rest) =>
      if !IsOK(status) then Read(Refused(status), rest)
      else
        (match BodyLines(lim, rest)
         case Got(lines, r) => Read(Value(BodyText(lines)), r)
         case Lost => Unreadable)
    case NoLine(_) => Unreadable
  }
}
