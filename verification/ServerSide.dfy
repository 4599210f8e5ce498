/** The server's half: every call's line reaches its handler, and the handler answers as the
    abstract maildrop says. */
module ServerSide {
  import opened Text
  import opened Numbers
  import opened Protocol
  import opened Maildrop
  import opened Requests
  import opened Dialogue
  import DotStuffWriters
  import Top

  // ----- The request reaches the handler -----

  lemma DecFacts(n: int)
    ensures IsToken(DecInt(n)) && '\n' !in DecInt(n)
    ensures MIN_INT64 <= n <= MAX_INT64 ==> |DecInt(n)| <= 20
  {
    hide Dec;
    DecIsToken(n);
    if MIN_INT64 <= n <= MAX_INT64 {
      DecInt64Length(n);
    }
    assert IsSpace('\n');
  }

  function NameOfRequest(q: Request): string {
    match q
    case Stat => "STAT"
    case List => "LIST"
    case ListOne(_) => "LIST"
    case Uidl => "UIDL"
    case UidlOne(_) => "UIDL"
    case Retr(_) => "RETR"
    case Top(_, _) => "TOP"
    case Dele(_) => "DELE"
    case Rset => "RSET"
    case Noop => "NOOP"
    case Quit => "QUIT"
  }

  function ArgsOf(q: Request): seq<string> {
    match q
    case ListOne(n) => [DecInt(n)]
    case UidlOne(n) => [DecInt(n)]
    case Retr(n) => [DecInt(n)]
    case Top(n, k) => [DecInt(n), DecInt(k)]
    case Dele(n) => [DecInt(n)]
    case _ => []
  }

  lemma RequestLineOf(q: Request)
    ensures RequestLine(q) == CommandLine(NameOfRequest(q), ArgsOf(q))
  {
    hide DecInt;
    if q.Top? {
      assert [DecInt(q.msg), DecInt(q.lines)][1..] == [DecInt(q.lines)];
      assert Join([DecInt(q.lines)]) == DecInt(q.lines);
      assert "TOP" + " " + (DecInt(q.msg) + " " + DecInt(q.lines)) == "TOP " + DecInt(q.msg) + " " + DecInt(q.lines);
    }
  }

  lemma RequestTokens(q: Request)
    ensures AllTokens(ArgsOf(q)) && IsToken(NameOfRequest(q)) && NoLower(NameOfRequest(q))
  {
    hide DecInt;
    match q {
      case ListOne(n) => DecFacts(n);
      case UidlOne(n) => DecFacts(n);
      case Retr(n) => DecFacts(n);
      case Top(n, k) =>
        DecFacts(n);
        DecFacts(k);
      case Dele(n) => DecFacts(n);
      case _ =>
    }
  }

  lemma CommandOfName(q: Request)
    ensures ParseVerb(NameOfRequest(q)) == CommandOf(q).verb
    ensures Join(ArgsOf(q)) == CommandOf(q).raw && ArgsOf(q) == CommandOf(q).args
  {
    hide ParseVerb, DecInt;
    ListingVerbs();
    MessageVerbs();
    PlainVerbs();
    if q.Top? {
      assert [DecInt(q.msg), DecInt(q.lines)][1..] == [DecInt(q.lines)];
      assert Join([DecInt(q.lines)]) == DecInt(q.lines);
    }
  }

  /** The server parses a call's line into the command it means. */
  lemma RequestParsed(q: Request)
    ensures RequestLine(q) != "" && TrimSpace(RequestLine(q)) == RequestLine(q)
    ensures ParseCommand(RequestLine(q)) == CommandOf(q)
  {
    hide ParseVerb, DecInt, ParseCommand, TrimSpace, RequestLine, CommandLine;
    RequestLineOf(q);
    RequestTokens(q);
    CommandOfName(q);
    ParseCommandLine(NameOfRequest(q), ArgsOf(q));
  }

  lemma RequestShort(q: Request)
    requires Is64Bit(q)
    ensures |RequestLine(q)| <= 64 && '\n' !in RequestLine(q)
  {
    hide DecInt;
    match q {
      case ListOne(n) => DecFacts(n);
      case UidlOne(n) => DecFacts(n);
      case Retr(n) => DecFacts(n);
      case Top(n, k) =>
        DecFacts(n);
        DecFacts(k);
      case Dele(n) => DecFacts(n);
      case _ =>
    }
  }

  lemma NumberParsed(n: int)
    ensures ParseMsgNum([DecInt(n)]) == if NumberOf(n).Some? then Good(n) else Bad(BadNumber)
  {
    hide DecInt, ParseNumber;
    ParseDec(n);
  }

  // ----- The handler answers as the maildrop says -----

  /** What the effect of a call's command has to be. */
  ghost predicate Serves(cfg: Config, msgs: seq<Message>, mail: Mail, st: ConnState,
                         q: Request, e: Effect)
  {
    && e.response == Respond(cfg, msgs, mail, q)
    && !e.prompted
    && e.quit == q.Quit?
    && e.next == (if Fault(q) then st.(errorCount := st.errorCount + 1) else st)
    && AfterCalls(msgs, mail, e.calls) == MailAfter(msgs, mail, q)
  }

  lemma OneCall(msgs: seq<Message>, mail: Mail, x: Call)
    ensures AfterCalls(msgs, mail, [x]) == AfterCall(msgs, mail, x)
  {
    assert [x][..0] == [];
  }

  /** The handler a call's command is dispatched to on an authenticated connection. */
  function Handled(cfg: Config, st: ConnState, q: Request, env: Env): Effect {
    match q
    case Stat => HandleStat(cfg, st, env)
    case List => HandleList(cfg, st, [], env)
    case ListOne(n) => HandleList(cfg, st, [DecInt(n)], env)
    case Uidl => HandleUidl(cfg, st, [], env)
    case UidlOne(n) => HandleUidl(cfg, st, [DecInt(n)], env)
    case Retr(n) => HandleRetr(cfg, st, [DecInt(n)], env)
    case Top(n, k) => HandleTop(cfg, st, [DecInt(n), DecInt(k)], env)
    case Dele(n) => HandleDele(cfg, st, [DecInt(n)], env)
    case Rset => HandleRset(cfg, st, env)
    case Noop => HandleNoop(cfg, st, env)
    case Quit => HandleQuit(cfg, st, env)
  }

  lemma Dispatched(cfg: Config, st: ConnState, q: Request, env: Env)
    requires st.authenticated
    ensures Dispatch(cfg, st, CommandOf(q), env) == Handled(cfg, st, q, env)
  {
    hide DecInt, HandleCapa, HandleStat, HandleList, HandleUidl, HandleRetr, HandleTop, HandleDele, HandleRset,
         HandleNoop, HandleQuit, HandleLang, HandleUTF8;
  }

  lemma ServesListing(cfg: Config, msgs: seq<Message>, mail: Mail, st: ConnState, q: Request, env: Env)
    requires env.session == Dialogue.MailSession(msgs, mail)
    requires st.authenticated && (q.Stat? || q.List? || q.Uidl?)
    ensures Serves(cfg, msgs, mail, st, q, Dispatch(cfg, st, CommandOf(q), env))
  {
    hide Dispatch, CommandOf, Infos, Uids, ListLines, UidlLines, SumSizes, Live, StatOf, MessageAt, TopOf, RetrOf,
         DeleOf;
    Dispatched(cfg, st, q, env);
    OneCall(msgs, mail, CallStat);
    OneCall(msgs, mail, CallList(0));
    OneCall(msgs, mail, CallUidl(0));
  }

  lemma ServesOne(cfg: Config, msgs: seq<Message>, mail: Mail, st: ConnState, q: Request, env: Env)
    requires env.session == Dialogue.MailSession(msgs, mail)
    requires st.authenticated && (q.ListOne? || q.UidlOne?)
    ensures Serves(cfg, msgs, mail, st, q, Dispatch(cfg, st, CommandOf(q), env))
  {
    hide Dispatch, CommandOf, DecInt, ParseMsgNum, Live, Infos, Uids;
    Dispatched(cfg, st, q, env);
    NumberParsed(q.msg);
    if NumberOf(q.msg).Some? {
      OneCall(msgs, mail, CallList(q.msg));
      OneCall(msgs, mail, CallUidl(q.msg));
    }
  }

  lemma ServesRetr(cfg: Config, msgs: seq<Message>, mail: Mail, st: ConnState, q: Request, env: Env)
    requires env.session == Dialogue.MailSession(msgs, mail)
    requires st.authenticated && q.Retr?
    ensures Serves(cfg, msgs, mail, st, q, Dispatch(cfg, st, CommandOf(q), env))
  {
    hide Dispatch, CommandOf, DecInt, ParseMsgNum, Live, Infos, Uids;
    Dispatched(cfg, st, q, env);
    NumberParsed(q.msg);
    if NumberOf(q.msg).Some? {
      OneCall(msgs, mail, CallRetr(q.msg));
      if MessageAt(msgs, mail.deleted, q.msg).Ok? {
        DotStuffWriters.OneChunk(msgs[q.msg - 1].data);
      }
    }
  }

  lemma ServesTop(cfg: Config, msgs: seq<Message>, mail: Mail, st: ConnState, q: Request, env: Env)
    requires env.session == Dialogue.MailSession(msgs, mail)
    requires st.authenticated && q.Top?
    ensures Serves(cfg, msgs, mail, st, q, Dispatch(cfg, st, CommandOf(q), env))
  {
    hide Dispatch, CommandOf, DecInt, ParseMsgNum, ParseNumber, Top.TopBytes, Live, Infos, Uids;
    Dispatched(cfg, st, q, env);
    NumberParsed(q.msg);
    ParseDec(q.lines);
    assert [DecInt(q.msg), DecInt(q.lines)][..1] == [DecInt(q.msg)];
    if NumberOf(q.msg).Some? && 0 <= q.lines <= MAX_INT32 {
      OneCall(msgs, mail, CallTop(q.msg, q.lines));
      if MessageAt(msgs, mail.deleted, q.msg).Ok? {
        DotStuffWriters.OneChunk(Top.TopBytes(msgs[q.msg - 1].data, q.lines));
      }
    }
  }

  lemma ServesDele(cfg: Config, msgs: seq<Message>, mail: Mail, st: ConnState, q: Request, env: Env)
    requires env.session == Dialogue.MailSession(msgs, mail)
    requires st.authenticated && q.Dele?
    ensures Serves(cfg, msgs, mail, st, q, Dispatch(cfg, st, CommandOf(q), env))
  {
    hide Dispatch, CommandOf, DecInt, ParseMsgNum, Live, Infos, Uids;
    Dispatched(cfg, st, q, env);
    NumberParsed(q.msg);
    if NumberOf(q.msg).Some? {
      OneCall(msgs, mail, CallDele(q.msg));
    }
  }

  lemma ServesPlain(cfg: Config, msgs: seq<Message>, mail: Mail, st: ConnState, q: Request, env: Env)
    requires env.session == Dialogue.MailSession(msgs, mail)
    requires st.authenticated && (q.Rset? || q.Noop? || q.Quit?)
    ensures Serves(cfg, msgs, mail, st, q, Dispatch(cfg, st, CommandOf(q), env))
  {
    hide Dispatch, CommandOf, Live, Infos, Uids, Without, Marked;
    Dispatched(cfg, st, q, env);
    OneCall(msgs, mail, CallRset);
    OneCall(msgs, mail, CallNoop);
    OneCall(msgs, mail, CallQuit);
  }

  /** Whatever the call, the server's handler answers it as the maildrop says and moves the
      session's marks as the maildrop's move. */
  lemma ServesEvery(cfg: Config, msgs: seq<Message>, mail: Mail, st: ConnState, q: Request, env: Env)
    requires env.session == Dialogue.MailSession(msgs, mail)
    requires st.authenticated
    ensures Serves(cfg, msgs, mail, st, q, Dispatch(cfg, st, CommandOf(q), env))
  {
    hide Serves, Dispatch, CommandOf;
    match q
    case ListOne(_) => ServesOne(cfg, msgs, mail, st, q, env);
    case UidlOne(_) => ServesOne(cfg, msgs, mail, st, q, env);
    case Retr(_) => ServesRetr(cfg, msgs, mail, st, q, env);
    case Top(_, _) => ServesTop(cfg, msgs, mail, st, q, env);
    case Dele(_) => ServesDele(cfg, msgs, mail, st, q, env);
    case Rset => ServesPlain(cfg, msgs, mail, st, q, env);
    case Noop => ServesPlain(cfg, msgs, mail, st, q, env);
    case Quit => ServesPlain(cfg, msgs, mail, st, q, env);
    case _ => ServesListing(cfg, msgs, mail, st, q, env);
  }
}
