/** What client and server say to each other: the client's calls, an abstract maildrop that
    answers them, and the two ends of the connection as functions of the bytes between them. */
module Dialogue {
  import opened Lines
  import opened Numbers
  import opened Sessions
  import opened Protocol
  import opened Maildrop
  import opened ClientReplies
  import DotStuff
  import Top

  // ----- The calls and what an abstract maildrop answers -----

  /** The client's calls; a number is whatever 64-bit integer the caller passes. */
  datatype Request =
    | Stat
    | List
    | ListOne(msg: int)
    | Uidl
    | UidlOne(msg: int)
    | Retr(msg: int)
    | Top(msg: int, lines: int)
    | Dele(msg: int)
    | Rset
    | Noop
    | Quit

  datatype Value =
    | TotalsValue(totals: (int, int))
    | InfosValue(infos: seq<Info>)
    | InfoValue(info: Info)
    | UidsValue(uids: seq<Uid>)
    | UidValue(uid: Uid)
    | TextValue(text: string)
    | Nothing

  /** What a call returns: a value, or an error that leaves the connection in step. */
  datatype CallResult = Returned(value: Value) | Refusal

  /** A message number denotes a message when it is a number of the snapshot (and one the
      protocol can express) that is not marked. */
  predicate Denotes(msgs: seq<Message>, deleted: set<nat>, msg: int) {
    1 <= msg <= |msgs| && msg <= MAX_INT32 && msg !in deleted
  }

  /** The abstract maildrop: a snapshot of messages and a set of marks. */
  function Expected(msgs: seq<Message>, deleted: set<nat>, q: Request): CallResult {
    var nums := Live(|msgs|, deleted);
    match q
    case Stat => Returned(TotalsValue((|nums|, SumSizes(Infos(msgs, nums)))))
    case List => Returned(InfosValue(Infos(msgs, nums)))
    case ListOne(n) =>
      if Denotes(msgs, deleted, n) then Returned(InfoValue(Info(n, |msgs[n - 1].data|))) else Refusal
    case Uidl => Returned(UidsValue(Uids(msgs, nums)))
    case UidlOne(n) =>
      if Denotes(msgs, deleted, n) then Returned(UidValue(Uid(n, msgs[n - 1].uid))) else Refusal
    case Retr(n) =>
      if Denotes(msgs, deleted, n) then Returned(TextValue(DotStuff.Normal(msgs[n - 1].data))) else Refusal
    case Top(n, k) =>
      if Denotes(msgs, deleted, n) && 0 <= k <= MAX_INT32 then
        Returned(TextValue(Block(LinesOf(msgs[n - 1].data)[..Top.KeptLines(msgs[n - 1].data, k)])))
      else Refusal
    case Dele(n) => if Denotes(msgs, deleted, n) then Returned(Nothing) else Refusal
    case Rset => Returned(Nothing)
    case Noop => Returned(Nothing)
    case Quit => Returned(Nothing)
  }

  /** The maildrop's own state: the marks of the session, and the messages of the user in the
      store as they are when the session quits. */
  datatype Mail = Mail(deleted: set<nat>, box: seq<Message>)

  /** Dele and Rset move the marks only; Quit commits them, removing the messages marked. */
  ghost function MailAfter(msgs: seq<Message>, mail: Mail, q: Request): Mail {
    match q
    case Dele(n) => if Denotes(msgs, mail.deleted, n) then mail.(deleted := mail.deleted + {n}) else mail
    case Rset => mail.(deleted := {})
    case Quit => mail.(box := Without(mail.box, Marked(msgs, mail.deleted)))
    case _ => mail
  }

  // ----- The server over an in-memory maildrop -----

  /** What a maildrop session answers: its snapshot and marks, and for QUIT the number of
      messages the store will remove. */
  ghost function MailSession(msgs: seq<Message>, mail: Mail): Session {
    Session(
      login := (u, p) => Rejected(AUTH_FAILED),
      mechanisms := Some(["PLAIN"]),
      plain := (i, u, p) => Rejected(AUTH_FAILED),
      stat := Ok(StatOf(msgs, mail.deleted)),
      list := (num: nat) => ListOf(msgs, mail.deleted, num),
      uidl := (num: nat) => UidlOf(msgs, mail.deleted, num),
      retr := (num: nat) => RetrOf(msgs, mail.deleted, num),
      top := (num: nat, lines: nat) => TopOf(msgs, mail.deleted, num, lines),
      dele := (num: nat) => DeleOf(msgs, mail.deleted, num),
      rset := Ok(()),
      noop := Ok(()),
      quit := Ok(|mail.box| - |Without(mail.box, Marked(msgs, mail.deleted))|),
      lang := None,
      utf8 := None
    )
  }

  ghost function AfterCall(msgs: seq<Message>, mail: Mail, x: Call): Mail {
    match x
    case CallDele(num) => mail.(deleted := MarksAfterDele(msgs, mail.deleted, num))
    case CallRset => mail.(deleted := {})
    case CallQuit => mail.(box := Without(mail.box, Marked(msgs, mail.deleted)))
    case _ => mail
  }

  /** What the session calls made do to the session and the store. */
  ghost function AfterCalls(msgs: seq<Message>, mail: Mail, calls: seq<Call>): Mail {
    if calls == [] then mail
    else AfterCall(msgs, AfterCalls(msgs, mail, calls[..|calls| - 1]), calls[|calls| - 1])
  }

  /** A server on an authenticated connection: its run so far, and the maildrop behind it. */
  datatype Server = Server(run: Run, mail: Mail)

  ghost function EnvOf(msgs: seq<Message>, mail: Mail): Env {
    Env(MailSession(msgs, mail), None, false, false, true)
  }

  /** One line arrives: a turn of the server's loop, and what it does to the session. */
  ghost function Feed(cfg: Config, msgs: seq<Message>, s: Server, raw: string): Server {
    var run := Step(cfg, s.run, Event(Received(raw), EnvOf(msgs, s.mail)));
    Server(run, if |run.calls| < |s.run.calls| then s.mail
                else AfterCalls(msgs, s.mail, run.calls[|s.run.calls|..]))
  }

  /** The bytes of the client arrive: the server reads them line by line. */
  ghost function FeedBytes(cfg: Config, msgs: seq<Message>, s: Server, input: string): Server
    decreases |input|
  {
    match NextLine(cfg.maxLineLength, input)
    case Line(raw, rest) => FeedBytes(cfg, msgs, Feed(cfg, msgs, s, raw), rest)
    case _ => s
  }

  // ----- The client -----

  function RequestLine(q: Request): string {
    match q
    case Stat => "STAT"
    case List => "LIST"
    case ListOne(n) => "LIST " + DecInt(n)
    case Uidl => "UIDL"
    case UidlOne(n) => "UIDL " + DecInt(n)
    case Retr(n) => "RETR " + DecInt(n)
    case Top(n, k) => "TOP " + DecInt(n) + " " + DecInt(k)
    case Dele(n) => "DELE " + DecInt(n)
    case Rset => "RSET"
    case Noop => "NOOP"
    case Quit => "QUIT"
  }

  /** What the client's calls write. */
  function RequestBytes(qs: seq<Request>): string {
    if qs == [] then "" else RequestLine(qs[0]) + CRLF + RequestBytes(qs[1..])
  }

  function Outcome<T>(r: Reading<T>, wrap: T -> Value): Option<(CallResult, string)> {
    match r
    case Read(Value(v), rest) => Some((Returned(wrap(v)), rest))
    case Read(_, rest) => Some((Refusal, rest))
    case Unreadable => None
  }

  /** A call's result and the bytes left unread, from the bytes received. */
  function ClientCall(lim: Limits, q: Request, s: string): Option<(CallResult, string)> {
    match q
    case Stat => Outcome(StatReply(lim, s), v => TotalsValue(v))
    case List => Outcome(ListReply(lim, s), v => InfosValue(v))
    case ListOne(_) => Outcome(ListOneReply(lim, s), v => InfoValue(v))
    case Uidl => Outcome(UidlReply(lim, s), v => UidsValue(v))
    case UidlOne(_) => Outcome(UidlOneReply(lim, s), v => UidValue(v))
    case Retr(_) => Outcome(BodyReply(lim, s), v => TextValue(v))
    case Top(_, _) => Outcome(BodyReply(lim, s), v => TextValue(v))
    case _ => Outcome(OkReply(lim, s), v => Nothing)
  }

  /** The client's calls in order, each reading on where the one before stopped. */
  function ClientCalls(lim: Limits, qs: seq<Request>, s: string): Option<(seq<CallResult>, string)> {
    if qs == [] then Some(([], s))
    else
      match ClientCall(lim, qs[0], s)
      case None => None
      case Some((r, rest)) =>
        match ClientCalls(lim, qs[1..], rest)
        case None => None
        case Some((rs, end)) => Some(([r] + rs, end))
  }

  ghost function ExpectedCalls(msgs: seq<Message>, mail: Mail, qs: seq<Request>): seq<CallResult>
    decreases |qs|
  {
    if qs == [] then []
    else [Expected(msgs, mail.deleted, qs[0])] + ExpectedCalls(msgs, MailAfter(msgs, mail, qs[0]), qs[1..])
  }

  ghost function FinalMail(msgs: seq<Message>, mail: Mail, qs: seq<Request>): Mail
    decreases |qs|
  {
    if qs == [] then mail else FinalMail(msgs, MailAfter(msgs, mail, qs[0]), qs[1..])
  }

  /** The box never grows in a conversation. */
  lemma {:induction false} BoxShrinks(msgs: seq<Message>, mail: Mail, qs: seq<Request>)
    ensures |FinalMail(msgs, mail, qs).box| <= |mail.box|
    ensures qs != [] ==> |MailAfter(msgs, mail, qs[0]).box| <= |mail.box|
    decreases |qs|
  {
    if qs != [] {
      BoxShrinks(msgs, MailAfter(msgs, mail, qs[0]), qs[1..]);
    }
  }

  // ----- The conditions -----

  function TotalSize(msgs: seq<Message>): int {
    if msgs == [] then 0 else TotalSize(msgs[..|msgs| - 1]) + |msgs[|msgs| - 1].data|
  }

  /** A unique-id as section 7 of RFC 1939 wants it: non-empty, of characters 0x21 to 0x7E. */
  predicate UidOk(uid: string) {
    uid != "" && forall i :: 0 <= i < |uid| ==> '\U{0021}' <= uid[i] <= '\U{007E}'
  }

  /** Numbers fit the machine's integers, and lines and listings the limits of the client. */
  predicate WithinLimits(msgs: seq<Message>, cfg: Config, lim: Limits) {
    && cfg.maxLineLength >= 64 && lim.line >= 64 && lim.lines >= |msgs|
    && |msgs| <= MAX_INT64 && TotalSize(msgs) <= MAX_INT64
    && (forall i :: 0 <= i < |msgs| ==> UidOk(msgs[i].uid) && |msgs[i].uid| + 32 <= lim.line)
    && (forall i :: 0 <= i < |msgs| ==>
          forall l :: l in LinesOf(msgs[i].data) ==> |DotStuff.StuffLine(l)| <= lim.line)
  }

  predicate Is64Bit(q: Request) {
    match q
    case ListOne(n) => MIN_INT64 <= n <= MAX_INT64
    case UidlOne(n) => MIN_INT64 <= n <= MAX_INT64
    case Retr(n) => MIN_INT64 <= n <= MAX_INT64
    case Top(n, k) => MIN_INT64 <= n <= MAX_INT64 && MIN_INT64 <= k <= MAX_INT64
    case Dele(n) => MIN_INT64 <= n <= MAX_INT64
    case _ => true
  }

  /** A number argument as the server reads it. */
  function NumberOf(n: int): Option<nat> {
    if 1 <= n <= MAX_INT32 then Some(n) else None
  }

  /** The calls that the server counts as errors of the client: those with a number argument
      that is none, whatever is in the maildrop. */
  predicate Fault(q: Request) {
    match q
    case ListOne(n) => NumberOf(n).None?
    case UidlOne(n) => NumberOf(n).None?
    case Retr(n) => NumberOf(n).None?
    case Top(n, k) => NumberOf(n).None? || !(0 <= k <= MAX_INT32)
    case Dele(n) => NumberOf(n).None?
    case _ => false
  }

  function Faults(qs: seq<Request>): nat {
    if qs == [] then 0 else (if Fault(qs[0]) then 1 else 0) + Faults(qs[1..])
  }

  /** The server waits for a command of an authenticated client, and so many more errors
      would not reach the limit. */
  predicate Serving(cfg: Config, r: Run, more: nat) {
    r.live && r.st.authenticated && !r.st.hijacked && !r.st.closePending
    && (cfg.maxErrors > 0 ==> r.st.errorCount + more < cfg.maxErrors)
  }

  // ----- What the server answers -----

  function RefuseWith(cfg: Config, e: SessionError): Response {
    Status(false, OfSession(e, cfg.strictSessionErrors))
  }

  ghost function Respond(cfg: Config, msgs: seq<Message>, mail: Mail, q: Request): Response {
    match q
    case Stat => Status(true, Totals(StatOf(msgs, mail.deleted).0, StatOf(msgs, mail.deleted).1))
    case List =>
      var items := Infos(msgs, Live(|msgs|, mail.deleted));
      Listing(MessageCount(|items|), ListLines(items))
    case ListOne(n) =>
      if NumberOf(n).None? then Status(false, BadNumber)
      else
        (match MessageAt(msgs, mail.deleted, n)
         case Err(e) => RefuseWith(cfg, e)
         case Ok(m) => Status(true, OneInfo(Info(n, |m.data|))))
    case Uidl =>
      var items := Uids(msgs, Live(|msgs|, mail.deleted));
      Listing(MessageCount(|items|), UidlLines(items))
    case UidlOne(n) =>
      if NumberOf(n).None? then Status(false, BadNumber)
      else
        (match MessageAt(msgs, mail.deleted, n)
         case Err(e) => RefuseWith(cfg, e)
         case Ok(m) => Status(true, OneUid(Uid(n, m.uid))))
    case Retr(n) =>
      if NumberOf(n).None? then Status(false, BadNumber)
      else
        (match MessageAt(msgs, mail.deleted, n)
         case Err(e) => RefuseWith(cfg, e)
         case Ok(m) => Message(MessageFollows, m.data))
    case Top(n, k) =>
      if NumberOf(n).None? then Status(false, BadNumber)
      else if k < 0 || k > MAX_INT32 then Status(false, BadLines)
      else
        (match MessageAt(msgs, mail.deleted, n)
         case Err(e) => RefuseWith(cfg, e)
         case Ok(m) => Message(TopFollows, Top.TopBytes(m.data, k)))
    case Dele(n) =>
      if NumberOf(n).None? then Status(false, BadNumber)
      else
        (match DeleOf(msgs, mail.deleted, n)
         case Err(e) => RefuseWith(cfg, e)
         case Ok(_) => Status(true, Deleted))
    case Rset => Status(true, WasReset)
    case Noop => Status(true, Done)
    case Quit =>
      var n := |mail.box| - |Without(mail.box, Marked(msgs, mail.deleted))|;
      Status(true, if n > 0 then Expunged(n) else Goodbye)
  }

  function CommandOf(q: Request): Command {
    match q
    case Stat => Command(STAT, [], "")
    case List => Command(LIST, [], "")
    case ListOne(n) => Command(LIST, [DecInt(n)], DecInt(n))
    case Uidl => Command(UIDL, [], "")
    case UidlOne(n) => Command(UIDL, [DecInt(n)], DecInt(n))
    case Retr(n) => Command(RETR, [DecInt(n)], DecInt(n))
    case Top(n, k) => Command(TOP, [DecInt(n), DecInt(k)], DecInt(n) + " " + DecInt(k))
    case Dele(n) => Command(DELE, [DecInt(n)], DecInt(n))
    case Rset => Command(RSET, [], "")
    case Noop => Command(NOOP, [], "")
    case Quit => Command(QUIT, [], "")
  }
}
