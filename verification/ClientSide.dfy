/** The client's half: from what the server answers every call reads the result of the abstract
    maildrop, whatever bytes follow. */
module ClientSide {
  import opened Lines
  import opened Text
  import opened Numbers
  import opened Sessions
  import opened Protocol
  import opened Maildrop
  import opened Requests
  import opened ClientReplies
  import opened LineReader
  import opened Dialogue
  import opened ServerSide
  import DotStuff
  import Top

  // ----- The client reads what was answered -----

  lemma Sanitized(ok: bool, msg: string)
    requires OneLine(msg) && msg != ""
    ensures StatusLine(ok, msg) == (if ok then "+OK" else "-ERR") + " " + msg
  {
  }

  /** A status line with a message is read back to its end. */
  lemma ReadStatusLine(lim: Limits, ok: bool, n: Notice, rest: string)
    requires |StatusLine(ok, MessageOf(n))| <= lim.line
    ensures TakeNext(lim, NoticeLine(ok, n) + rest) == Took(StatusLine(ok, MessageOf(n)), rest)
    ensures IsOK(StatusLine(ok, MessageOf(n))) == ok
  {
    hide MessageOf;
    var line := StatusLine(ok, MessageOf(n));
    if !ok {
      assert line[0] == '-';
    }
    NextLineBack(lim.line, line, rest);
    NextIsLine(lim, line + CRLF + rest);
  }

  /** A refusal is read as one by every call. */
  lemma RefusalRead(lim: Limits, q: Request, n: Notice, rest: string)
    requires |StatusLine(false, MessageOf(n))| <= lim.line
    ensures ClientCall(lim, q, Render(Status(false, n)) + rest) == Some((Refusal, rest))
  {
    hide MessageOf, StatusLine, TakeNext, ParseTotals, ParseNumSize, ParseNumUid, MultiLine, BodyLines;
    ReadStatusLine(lim, false, n, rest);
  }

  lemma ShortStatus(ok: bool, n: Notice)
    requires |MessageOf(n)| <= 58
    ensures |StatusLine(ok, MessageOf(n))| <= 64
  {
    hide MessageOf;
  }

  lemma RefusalsShort()
    ensures |StatusLine(false, MessageOf(BadNumber))| <= 64
    ensures |StatusLine(false, MessageOf(BadLines))| <= 64
  {
    hide StatusLine;
    ShortStatus(false, BadNumber);
    ShortStatus(false, BadLines);
  }

  lemma MaildropErrorShort(e: SessionError, strict: bool)
    requires e == NO_SUCH || e == IS_DELETED || e == ALREADY_DELETED
    ensures |StatusLine(false, MessageOf(OfSession(e, strict)))| <= 64
  {
    hide StatusLine;
    ShortStatus(false, OfSession(e, strict));
  }

  lemma OkShort()
    ensures |StatusLine(true, MessageOf(Deleted))| <= 64
    ensures |StatusLine(true, MessageOf(WasReset))| <= 64
    ensures |StatusLine(true, MessageOf(Done))| <= 64
    ensures |StatusLine(true, MessageOf(Goodbye))| <= 64
    ensures |StatusLine(true, MessageOf(MessageFollows))| <= 64
    ensures |StatusLine(true, MessageOf(TopFollows))| <= 64
  {
    hide StatusLine;
    ShortStatus(true, Deleted);
    ShortStatus(true, WasReset);
    ShortStatus(true, Done);
    ShortStatus(true, Goodbye);
    ShortStatus(true, MessageFollows);
    ShortStatus(true, TopFollows);
  }

  lemma CountsShort(n: int)
    requires MIN_INT64 <= n <= MAX_INT64
    ensures |StatusLine(true, MessageOf(MessageCount(n)))| <= 64
    ensures |StatusLine(true, MessageOf(Expunged(n)))| <= 64
  {
    hide StatusLine, DecInt;
    DecFacts(n);
    ShortStatus(true, MessageCount(n));
    ShortStatus(true, Expunged(n));
  }

  // ----- Numbers and sizes -----

  lemma LiveCount(n: nat, deleted: set<nat>)
    ensures |Live(n, deleted)| <= n
  {
  }

  lemma TotalSnoc(msgs: seq<Message>, n: nat)
    requires n < |msgs|
    ensures TotalSize(msgs[..n + 1]) == TotalSize(msgs[..n]) + |msgs[n].data|
  {
    assert msgs[..n + 1][..n] == msgs[..n];
  }

  lemma {:induction false} LiveSize(msgs: seq<Message>, n: nat, deleted: set<nat>)
    requires n <= |msgs|
    ensures 0 <= SumSizes(Infos(msgs, Live(n, deleted))) <= TotalSize(msgs[..n])
  {
    if n > 0 {
      hide SumSizes, TotalSize, Infos, Live;
      LiveSize(msgs, n - 1, deleted);
      InfosSnoc(msgs, n - 1, deleted);
      TotalSnoc(msgs, n - 1);
    }
  }

  lemma {:induction false} SizeWithin(msgs: seq<Message>, i: nat)
    requires i < |msgs|
    ensures 0 <= |msgs[i].data| <= TotalSize(msgs)
  {
    var init := msgs[..|msgs| - 1];
    TotalNonNegative(init);
    if i < |init| {
      SizeWithin(init, i);
    }
  }

  lemma {:induction false} TotalNonNegative(msgs: seq<Message>)
    ensures TotalSize(msgs) >= 0
  {
    if msgs != [] {
      TotalNonNegative(msgs[..|msgs| - 1]);
    }
  }

  lemma OneLineTwo(a: string, b: string)
    requires IsToken(a) && IsToken(b)
    ensures OneLine(a + " " + b) && a + " " + b != ""
  {
    assert IsSpace('\r') && IsSpace('\n');
  }

  lemma FieldsOfTwo(a: string, b: string)
    requires IsToken(a) && IsToken(b)
    ensures Fields(a + " " + b) == [a, b]
  {
    FieldsOfToken(b);
    assert (" " + b)[1..] == b;
    assert a + " " + b == a + (" " + b);
    assert Fields(" " + b) == Fields(b);
    hide Fields, IsToken;
    FieldsCons(a, " " + b);
  }

  lemma FieldsAfterOK(line: string)
    ensures Fields("+OK " + line) == ["+OK"] + Fields(line)
  {
    assert (" " + line)[1..] == line;
    assert Fields(" " + line) == Fields(line);
    assert IsToken("+OK");
    hide Fields, IsToken;
    FieldsCons("+OK", " " + line);
    assert "+OK " + line == "+OK" + (" " + line);
  }

  lemma TrimTwo(a: string, b: string)
    requires IsToken(a) && IsToken(b)
    ensures TrimSpace(" " + (a + " " + b)) == a + " " + b
  {
    var line := a + " " + b;
    TokenEnds(a);
    TokenEnds(b);
    assert (" " + line)[1..] == line;
    assert TrimLeft(" " + line) == TrimLeft(line);
    assert line[0] == a[0] && line[|line| - 1] == b[|b| - 1];
    TrimmedAlready(line);
  }

  /** A status line with two tokens, read back field by field. */
  lemma TwoFields(a: string, b: string)
    requires IsToken(a) && IsToken(b)
    ensures Fields(a + " " + b) == [a, b]
    ensures Fields("+OK " + (a + " " + b)) == ["+OK", a, b]
    ensures TrimSpace(" " + (a + " " + b)) == a + " " + b
  {
    hide Fields, IsToken, TrimSpace;
    FieldsOfTwo(a, b);
    FieldsAfterOK(a + " " + b);
    TrimTwo(a, b);
  }

  lemma StatusOfTwo(n: Notice, a: string, b: string)
    requires IsToken(a) && IsToken(b) && MessageOf(n) == a + " " + b
    ensures StatusLine(true, MessageOf(n)) == "+OK " + (a + " " + b)
    ensures IsOK(StatusLine(true, MessageOf(n))) && StatusLine(true, MessageOf(n))[3..] == " " + (a + " " + b)
  {
    hide MessageOf;
    OneLineTwo(a, b);
    Sanitized(true, a + " " + b);
  }

  lemma UidIsToken(uid: string)
    requires UidOk(uid)
    ensures IsToken(uid) && Sanitize(uid) == uid
  {
    assert OneLine(uid);
  }

  // ----- Each call reads its answer -----

  lemma StatRead(lim: Limits, count: int, size: int, rest: string)
    requires lim.line >= 64 && MIN_INT64 <= count <= MAX_INT64 && MIN_INT64 <= size <= MAX_INT64
    ensures ClientCall(lim, Stat, Render(Status(true, Totals(count, size))) + rest)
            == Some((Returned(TotalsValue((count, size))), rest))
  {
    hide MessageOf, StatusLine, DecInt, TakeNext, Fields, Atoi;
    var n := Totals(count, size);
    TotalsText(count, size);
    DecFacts(count);
    DecFacts(size);
    StatusOfTwo(n, DecInt(count), DecInt(size));
    TwoFields(DecInt(count), DecInt(size));
    AtoiOfDec(count);
    AtoiOfDec(size);
    ReadStatusLine(lim, true, n, rest);
  }

  lemma TotalsText(count: int, size: int)
    ensures MessageOf(Totals(count, size)) == DecInt(count) + " " + DecInt(size)
    ensures MessageOf(OneInfo(Info(count, size))) == DecInt(count) + " " + DecInt(size)
  {
    hide DecInt;
  }

  /** One line of a listing. */
  lemma InfoLineParsed(i: Info)
    requires MIN_INT64 <= i.num <= MAX_INT64 && MIN_INT64 <= i.size <= MAX_INT64
    ensures ParseNumSize(ListLine(i)) == Some(i)
    ensures '\n' !in ListLine(i) && ListLine(i) != "." && DotStuff.UnstuffLine(ListLine(i)) == ListLine(i)
    ensures |ListLine(i)| <= 64
  {
    hide DecInt, Fields, Atoi;
    DecFacts(i.num);
    DecFacts(i.size);
    TwoFields(DecInt(i.num), DecInt(i.size));
    AtoiOfDec(i.num);
    AtoiOfDec(i.size);
    DecIsToken(i.num);
  }

  lemma UidLineParsed(u: Uid, max: int)
    requires MIN_INT64 <= u.num <= MAX_INT64 && UidOk(u.uid) && |u.uid| + 32 <= max
    ensures ParseNumUid(UidlLine(u)) == Some(u)
    ensures '\n' !in UidlLine(u) && UidlLine(u) != "." && DotStuff.UnstuffLine(UidlLine(u)) == UidlLine(u)
    ensures |UidlLine(u)| + 10 <= max && UidlLine(u) == DecInt(u.num) + " " + u.uid
  {
    hide DecInt, Fields, Atoi;
    UidIsToken(u.uid);
    DecFacts(u.num);
    TwoFields(DecInt(u.num), u.uid);
    AtoiOfDec(u.num);
    DecIsToken(u.num);
  }

  lemma ListOneRead(lim: Limits, msg: int, i: Info, rest: string)
    requires lim.line >= 64 && MIN_INT64 <= i.num <= MAX_INT64 && MIN_INT64 <= i.size <= MAX_INT64
    ensures ClientCall(lim, ListOne(msg), Render(Status(true, OneInfo(i))) + rest)
            == Some((Returned(InfoValue(i)), rest))
  {
    hide MessageOf, StatusLine, DecInt, TakeNext, ParseNumSize, TrimSpace;
    var n := OneInfo(i);
    TotalsText(i.num, i.size);
    DecFacts(i.num);
    DecFacts(i.size);
    StatusOfTwo(n, DecInt(i.num), DecInt(i.size));
    TwoFields(DecInt(i.num), DecInt(i.size));
    InfoLineParsed(i);
    ReadStatusLine(lim, true, n, rest);
  }

  lemma UidlOneOf(lim: Limits, msg: int, s: string, status: string, rest: string, u: Uid)
    requires TakeNext(lim, s) == Took(status, rest) && IsOK(status) && ParseNumUid(AfterOK(status)) == Some(u)
    ensures ClientCall(lim, UidlOne(msg), s) == Some((Returned(UidValue(u)), rest))
  {
    hide TakeNext, ParseNumUid, AfterOK;
  }

  lemma UidlOneRead(lim: Limits, msg: int, u: Uid, rest: string)
    requires MIN_INT64 <= u.num <= MAX_INT64 && UidOk(u.uid) && |u.uid| + 32 <= lim.line
    ensures ClientCall(lim, UidlOne(msg), Render(Status(true, OneUid(u))) + rest)
            == Some((Returned(UidValue(u)), rest))
  {
    hide MessageOf, StatusLine, DecInt, TakeNext, ParseNumUid, TrimSpace, UidlLine, UidOk, IsToken, ClientCall,
         DotStuff.UnstuffLine;
    var n := OneUid(u);
    UidText(u);
    DecFacts(u.num);
    UidIsToken(u.uid);
    UidLineParsed(u, lim.line);
    StatusOfTwo(n, DecInt(u.num), u.uid);
    TwoFields(DecInt(u.num), u.uid);
    ReadStatusLine(lim, true, n, rest);
    UidlOneOf(lim, msg, NoticeLine(true, n) + rest, StatusLine(true, MessageOf(n)), rest, u);
  }

  lemma UidText(u: Uid)
    ensures MessageOf(OneUid(u)) == UidlLine(u)
  {
    hide UidlLine;
  }

  predicate InfosOk(items: seq<Info>) {
    forall i :: 0 <= i < |items| ==> MIN_INT64 <= items[i].num <= MAX_INT64 && MIN_INT64 <= items[i].size <= MAX_INT64
  }

  predicate UidsOk(items: seq<Uid>, max: int) {
    forall i :: 0 <= i < |items| ==>
      MIN_INT64 <= items[i].num <= MAX_INT64 && UidOk(items[i].uid) && |items[i].uid| + 32 <= max
  }

  /** Lines that travel unchanged through stuffing and unstuffing. */
  predicate PlainLines(lines: seq<string>, max: int) {
    forall i :: 0 <= i < |lines| ==>
      '\n' !in lines[i] && lines[i] != "." && |lines[i]| <= max && DotStuff.UnstuffLine(lines[i]) == lines[i]
  }

  lemma PlainUnstuffed(lines: seq<string>, max: int)
    requires PlainLines(lines, max)
    ensures DotStuff.UnstuffAll(lines) == lines
  {
  }

  /** A listing of plain lines is read back line by line. */
  lemma ListingRead(lim: Limits, n: Notice, lines: seq<string>, rest: string)
    requires |StatusLine(true, MessageOf(n))| <= lim.line && lim.line >= 1
    requires PlainLines(lines, lim.line) && |lines| <= lim.lines
    ensures var line := TakeNext(lim, Render(Listing(n, lines)) + rest);
            && line.Took? && IsOK(line.line)
            && MultiLine(lim, lim.lines, line.rest) == Got(lines, rest)
  {
    hide MessageOf, StatusLine, TakeNext, Block, MultiLine, ReadUntilDot;
    var more := Block(lines) + "." + CRLF + rest;
    assert Render(Listing(n, lines)) + rest == NoticeLine(true, n) + more;
    ReadStatusLine(lim, true, n, more);
    ReadUntilDotBlock(lim.line, lines, rest);
    MultiLineGot(lim, lim.lines, more);
    PlainUnstuffed(lines, lim.line);
  }

  lemma InfosPlain(items: seq<Info>)
    requires InfosOk(items)
    ensures PlainLines(ListLines(items), 64)
  {
    hide ListLine, ParseNumSize, DotStuff.UnstuffLine;
    forall i | 0 <= i < |items|
      ensures var l := ListLines(items)[i];
              '\n' !in l && l != "." && |l| <= 64 && DotStuff.UnstuffLine(l) == l
    {
      InfoLineParsed(items[i]);
    }
  }

  lemma FirstInfo(items: seq<Info>)
    requires items != [] && ParseNumSize(ListLine(items[0])) == Some(items[0])
    requires ParseInfos(ListLines(items[1..])) == ClientReplies.Value(items[1..])
    ensures ParseInfos(ListLines(items)) == ClientReplies.Value(items)
  {
    hide ListLine, ParseNumSize;
    assert ListLines(items)[1..] == ListLines(items[1..]);
    assert [items[0]] + items[1..] == items;
  }

  lemma {:induction false} InfosParsed(items: seq<Info>)
    requires InfosOk(items)
    ensures ParseInfos(ListLines(items)) == ClientReplies.Value(items)
    ensures PlainLines(ListLines(items), 64)
  {
    InfosPlain(items);
    if items != [] {
      hide ListLine, ParseNumSize, DotStuff.UnstuffLine, ParseInfos, ListLines, PlainLines;
      InfoLineParsed(items[0]);
      InfosParsed(items[1..]);
      FirstInfo(items);
    }
  }

  lemma UidsPlain(items: seq<Uid>, max: int)
    requires UidsOk(items, max)
    ensures PlainLines(UidlLines(items), max)
  {
    hide UidlLine, ParseNumUid, DotStuff.UnstuffLine, UidOk;
    forall i | 0 <= i < |items|
      ensures var l := UidlLines(items)[i];
              '\n' !in l && l != "." && |l| <= max && DotStuff.UnstuffLine(l) == l
    {
      UidLineParsed(items[i], max);
    }
  }

  lemma FirstUid(items: seq<Uid>)
    requires items != [] && ParseNumUid(UidlLine(items[0])) == Some(items[0])
    requires ParseUids(UidlLines(items[1..])) == ClientReplies.Value(items[1..])
    ensures ParseUids(UidlLines(items)) == ClientReplies.Value(items)
  {
    hide UidlLine, ParseNumUid;
    assert UidlLines(items)[1..] == UidlLines(items[1..]);
    assert [items[0]] + items[1..] == items;
  }

  lemma {:induction false} UidsParsed(items: seq<Uid>, max: int)
    requires UidsOk(items, max)
    ensures ParseUids(UidlLines(items)) == ClientReplies.Value(items)
    ensures PlainLines(UidlLines(items), max)
  {
    UidsPlain(items, max);
    if items != [] {
      hide UidlLine, ParseNumUid, DotStuff.UnstuffLine, UidOk, ParseUids, UidlLines, PlainLines;
      UidLineParsed(items[0], max);
      UidsParsed(items[1..], max);
      FirstUid(items);
    }
  }

  lemma ListRead(lim: Limits, items: seq<Info>, rest: string)
    requires lim.line >= 64 && |items| <= lim.lines && |items| <= MAX_INT64 && InfosOk(items)
    ensures ClientCall(lim, List, Render(Listing(MessageCount(|items|), ListLines(items))) + rest)
            == Some((Returned(InfosValue(items)), rest))
  {
    hide MessageOf, StatusLine, TakeNext, Render, MultiLine, ListLine, ParseInfos, InfosOk;
    CountsShort(|items|);
    InfosParsed(items);
    ListingRead(lim, MessageCount(|items|), ListLines(items), rest);
  }

  lemma UidlRead(lim: Limits, items: seq<Uid>, rest: string)
    requires lim.line >= 64 && |items| <= lim.lines && |items| <= MAX_INT64 && UidsOk(items, lim.line)
    ensures ClientCall(lim, Uidl, Render(Listing(MessageCount(|items|), UidlLines(items))) + rest)
            == Some((Returned(UidsValue(items)), rest))
  {
    hide MessageOf, StatusLine, TakeNext, Render, MultiLine, UidlLine, ParseUids, UidsOk;
    CountsShort(|items|);
    UidsParsed(items, lim.line);
    ListingRead(lim, MessageCount(|items|), UidlLines(items), rest);
  }

  /** The wire form of a body is taken line by line to its end, and gives its normal form. */
  lemma BodyTaken(lim: Limits, body: string, rest: string)
    requires lim.line >= 1
    requires forall l :: l in LinesOf(body) ==> |DotStuff.StuffLine(l)| <= lim.line
    ensures BodyLines(lim, DotStuff.Stuffed(body) + rest) == Got(DotStuff.StuffAll(LinesOf(body)), rest)
    ensures BodyText(DotStuff.StuffAll(LinesOf(body))) == DotStuff.Normal(body)
  {
    hide BodyLines, ReadUntilDot, LinesOf, DotStuff.Stuffed, DotStuff.Normal, DotStuff.StuffAll, DotStuff.UnstuffAll;
    DotStuff.RoundTrip(lim.line, body, rest);
    BodyLinesGot(lim, DotStuff.Stuffed(body) + rest);
  }

  lemma BodyReplyOf(lim: Limits, s: string, status: string, more: string)
    requires TakeNext(lim, s) == Took(status, more) && IsOK(status) && BodyLines(lim, more).Got?
    ensures var m := BodyLines(lim, more); BodyReply(lim, s) == Read(ClientReplies.Value(BodyText(m.lines)), m.rest)
  {
    hide TakeNext, BodyLines, BodyText;
  }

  lemma RetrievalOf(lim: Limits, q: Request, s: string, text: string, rest: string)
    requires q.Retr? || q.Top?
    requires BodyReply(lim, s) == Read(ClientReplies.Value(text), rest)
    ensures ClientCall(lim, q, s) == Some((Returned(TextValue(text)), rest))
  {
    hide BodyReply;
  }

  lemma BodyRead(lim: Limits, q: Request, n: Notice, body: string, rest: string)
    requires q.Retr? || q.Top?
    requires |StatusLine(true, MessageOf(n))| <= lim.line && lim.line >= 1
    requires forall l :: l in LinesOf(body) ==> |DotStuff.StuffLine(l)| <= lim.line
    ensures ClientCall(lim, q, Render(Message(n, body)) + rest)
            == Some((Returned(TextValue(DotStuff.Normal(body))), rest))
  {
    hide MessageOf, StatusLine, TakeNext, BodyLines, BodyText, BodyReply, ClientCall, LinesOf;
    hide DotStuff.Stuffed, DotStuff.StuffAll, DotStuff.Normal;
    var more := DotStuff.Stuffed(body) + rest;
    assert Render(Message(n, body)) + rest == NoticeLine(true, n) + more;
    ReadStatusLine(lim, true, n, more);
    BodyTaken(lim, body, rest);
    BodyReplyOf(lim, NoticeLine(true, n) + more, StatusLine(true, MessageOf(n)), more);
    RetrievalOf(lim, q, NoticeLine(true, n) + more, DotStuff.Normal(body), rest);
  }

  lemma OkRead(lim: Limits, q: Request, n: Notice, rest: string)
    requires q.Dele? || q.Rset? || q.Noop? || q.Quit?
    requires |StatusLine(true, MessageOf(n))| <= lim.line
    ensures ClientCall(lim, q, Render(Status(true, n)) + rest) == Some((Returned(Nothing), rest))
  {
    hide MessageOf, StatusLine, TakeNext;
    ReadStatusLine(lim, true, n, rest);
  }

  // ----- Every call reads what the maildrop means -----

  lemma ItemsOk(msgs: seq<Message>, deleted: set<nat>, cfg: Config, lim: Limits)
    requires WithinLimits(msgs, cfg, lim)
    ensures var nums := Live(|msgs|, deleted);
            && |nums| <= lim.lines && |nums| <= MAX_INT64
            && InfosOk(Infos(msgs, nums)) && UidsOk(Uids(msgs, nums), lim.line)
            && 0 <= SumSizes(Infos(msgs, nums)) <= MAX_INT64
  {
    hide UidOk, TotalSize, SumSizes;
    var nums := Live(|msgs|, deleted);
    LiveCount(|msgs|, deleted);
    LiveSize(msgs, |msgs|, deleted);
    assert msgs[..|msgs|] == msgs;
    forall i | 0 <= i < |nums|
      ensures 0 <= |msgs[nums[i] - 1].data| <= MAX_INT64
    {
      SizeWithin(msgs, nums[i] - 1);
    }
  }

  lemma AgreeListing(cfg: Config, msgs: seq<Message>, mail: Mail, lim: Limits,
                     q: Request, rest: string)
    requires WithinLimits(msgs, cfg, lim) && (q.Stat? || q.List? || q.Uidl?)
    ensures ClientCall(lim, q, Render(Respond(cfg, msgs, mail, q)) + rest)
            == Some((Expected(msgs, mail.deleted, q), rest))
  {
    hide ClientCall, Render, Infos, Uids, Live, SumSizes, ListLines, UidlLines, WithinLimits, InfosOk, UidsOk;
    LimitFacts(msgs, cfg, lim);
    ItemsOk(msgs, mail.deleted, cfg, lim);
    var nums := Live(|msgs|, mail.deleted);
    if q.Stat? {
      StatRead(lim, |nums|, SumSizes(Infos(msgs, nums)), rest);
    } else if q.List? {
      ListRead(lim, Infos(msgs, nums), rest);
    } else {
      UidlRead(lim, Uids(msgs, nums), rest);
    }
  }

  lemma LimitFacts(msgs: seq<Message>, cfg: Config, lim: Limits)
    requires WithinLimits(msgs, cfg, lim)
    ensures lim.line >= 64 && cfg.maxLineLength >= 64 && |msgs| <= lim.lines && |msgs| <= MAX_INT64
  {
  }

  /** A number that denotes no message is refused, whatever was asked. */
  lemma AgreeRefusal(cfg: Config, msgs: seq<Message>, mail: Mail, lim: Limits,
                     q: Request, rest: string)
    requires lim.line >= 64
    requires q.ListOne? || q.UidlOne? || q.Retr? || q.Top? || q.Dele?
    requires !Denotes(msgs, mail.deleted, q.msg) || (q.Top? && !(0 <= q.lines <= MAX_INT32))
    ensures ClientCall(lim, q, Render(Respond(cfg, msgs, mail, q)) + rest)
            == Some((Expected(msgs, mail.deleted, q), rest))
  {
    hide ClientCall, Render, MessageOf, StatusLine, LinesOf, Top.KeptLines, Top.TopBytes, DotStuff.Normal, Live;
    RefusalsShort();
    var strict := cfg.strictSessionErrors;
    MaildropErrorShort(NO_SUCH, strict);
    MaildropErrorShort(IS_DELETED, strict);
    MaildropErrorShort(ALREADY_DELETED, strict);
    var r := Respond(cfg, msgs, mail, q);
    assert r.Status? && !r.ok;
    RefusalRead(lim, q, r.notice, rest);
  }

  lemma AgreeMessage(cfg: Config, msgs: seq<Message>, mail: Mail, lim: Limits,
                     q: Request, rest: string)
    requires WithinLimits(msgs, cfg, lim)
    requires q.ListOne? || q.UidlOne? || q.Retr? || q.Dele?
    requires Denotes(msgs, mail.deleted, q.msg)
    ensures ClientCall(lim, q, Render(Respond(cfg, msgs, mail, q)) + rest)
            == Some((Expected(msgs, mail.deleted, q), rest))
  {
    hide ClientCall, Render, MessageOf, StatusLine, LinesOf, DotStuff.Normal, Live, UidOk, TotalSize;
    OkShort();
    var m := msgs[q.msg - 1];
    SizeWithin(msgs, q.msg - 1);
    if q.ListOne? {
      ListOneRead(lim, q.msg, Info(q.msg, |m.data|), rest);
    } else if q.UidlOne? {
      UidlOneRead(lim, q.msg, Uid(q.msg, m.uid), rest);
    } else if q.Retr? {
      BodyRead(lim, q, MessageFollows, m.data, rest);
    } else {
      OkRead(lim, q, Deleted, rest);
    }
  }

  lemma AgreeTop(cfg: Config, msgs: seq<Message>, mail: Mail, lim: Limits,
                 q: Request, rest: string)
    requires WithinLimits(msgs, cfg, lim)
    requires q.Top? && Denotes(msgs, mail.deleted, q.msg) && 0 <= q.lines <= MAX_INT32
    ensures ClientCall(lim, q, Render(Respond(cfg, msgs, mail, q)) + rest)
            == Some((Expected(msgs, mail.deleted, q), rest))
  {
    hide ClientCall, Render, MessageOf, StatusLine, LinesOf, Live, UidOk, TotalSize, Top.KeptLines, Top.TopBytes;
    OkShort();
    var data := msgs[q.msg - 1].data;
    Top.TopLines(data, q.lines);
    var top := Top.TopBytes(data, q.lines);
    assert forall l :: l in LinesOf(top) ==> l in LinesOf(data);
    BodyRead(lim, q, TopFollows, top, rest);
  }

  lemma AgreePlain(cfg: Config, msgs: seq<Message>, mail: Mail, lim: Limits,
                   q: Request, rest: string)
    requires lim.line >= 64 && |mail.box| <= MAX_INT64 && (q.Rset? || q.Noop? || q.Quit?)
    ensures ClientCall(lim, q, Render(Respond(cfg, msgs, mail, q)) + rest)
            == Some((Expected(msgs, mail.deleted, q), rest))
  {
    hide ClientCall, Render, MessageOf, StatusLine, Live, Without, Marked;
    OkShort();
    CountsShort(|mail.box| - |Without(mail.box, Marked(msgs, mail.deleted))|);
    var r := Respond(cfg, msgs, mail, q);
    OkRead(lim, q, r.notice, rest);
  }

  /** For every call: from the server's answer, whatever follows it, the client reads the result
      of the abstract maildrop and leaves exactly what follows. */
  lemma Agree(cfg: Config, msgs: seq<Message>, mail: Mail, lim: Limits,
              q: Request, rest: string)
    requires WithinLimits(msgs, cfg, lim) && |mail.box| <= MAX_INT64
    ensures ClientCall(lim, q, Render(Respond(cfg, msgs, mail, q)) + rest)
            == Some((Expected(msgs, mail.deleted, q), rest))
  {
    hide ClientCall, Render, Respond, Expected, WithinLimits, Denotes;
    LimitFacts(msgs, cfg, lim);
    match q {
      case Stat => AgreeListing(cfg, msgs, mail, lim, q, rest);
      case List => AgreeListing(cfg, msgs, mail, lim, q, rest);
      case Uidl => AgreeListing(cfg, msgs, mail, lim, q, rest);
      case Rset => AgreePlain(cfg, msgs, mail, lim, q, rest);
      case Noop => AgreePlain(cfg, msgs, mail, lim, q, rest);
      case Quit => AgreePlain(cfg, msgs, mail, lim, q, rest);
      case Top(n, k) =>
        if Denotes(msgs, mail.deleted, n) && 0 <= k <= MAX_INT32 {
          AgreeTop(cfg, msgs, mail, lim, q, rest);
        } else {
          AgreeRefusal(cfg, msgs, mail, lim, q, rest);
        }
      case ListOne(_) => AgreeNumber(cfg, msgs, mail, lim, q, rest);
      case UidlOne(_) => AgreeNumber(cfg, msgs, mail, lim, q, rest);
      case Retr(_) => AgreeNumber(cfg, msgs, mail, lim, q, rest);
      case Dele(_) => AgreeNumber(cfg, msgs, mail, lim, q, rest);
    }
  }

  lemma AgreeNumber(cfg: Config, msgs: seq<Message>, mail: Mail, lim: Limits,
                    q: Request, rest: string)
    requires WithinLimits(msgs, cfg, lim)
    requires q.ListOne? || q.UidlOne? || q.Retr? || q.Dele?
    ensures ClientCall(lim, q, Render(Respond(cfg, msgs, mail, q)) + rest)
            == Some((Expected(msgs, mail.deleted, q), rest))
  {
    hide ClientCall, Render, Respond, Expected, WithinLimits, Denotes;
    LimitFacts(msgs, cfg, lim);
    if Denotes(msgs, mail.deleted, q.msg) {
      AgreeMessage(cfg, msgs, mail, lim, q, rest);
    } else {
      AgreeRefusal(cfg, msgs, mail, lim, q, rest);
    }
  }
}
