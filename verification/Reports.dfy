/** What every command answers and what it costs: the session's reply is reported as it was given,
    and exactly the client's faults and the logins refused are counted and slept for. */
module Reports {
  import opened Lines
  import opened Text
  import opened Numbers
  import opened Sessions
  import opened Protocol
  import opened DotStuffWriters
  import Sasl

  // ----- The session's reply -----

  function Refusal(cfg: Config, e: SessionError): Response {
    Status(false, OfSession(e, cfg.strictSessionErrors))
  }

  predicate ReportsLogin(cfg: Config, reply: AuthReply, r: Response) {
    match reply
    case Accepted => r == Status(true, LoggedIn)
    case Hijacked => r == NoResponse
    case Rejected(e) => r == Refusal(cfg, e)
  }

  predicate ReportsBody(n: Notice, body: Body, r: Response) {
    if body.failed then r == Broken(n, Concat(body.chunks)) else r == Message(n, Concat(body.chunks))
  }

  /** What is answered after the session was called: its reply, and of a query for one message only
      a reply with one item. */
  predicate Reports(cfg: Config, s: Session, x: Call, r: Response) {
    match x
    case CallLogin(name, word, _, reply) => reply == s.login(name, word) && ReportsLogin(cfg, reply, r)
    case CallPlain(id, name, word, _, reply) => reply == s.plain(id, name, word) && ReportsLogin(cfg, reply, r)
    case CallStat =>
      (match s.stat
       case Err(e) => r == Refusal(cfg, e)
       case Ok(v) => r == Status(true, Totals(v.0, v.1)))
    case CallList(num) =>
      (match s.list(num)
       case Err(e) => r == Refusal(cfg, e)
       case Ok(items) =>
         if num == 0 then
           r.Listing? && r.notice == MessageCount(|items|) && |r.lines| == |items|
           && forall i :: 0 <= i < |items| ==> r.lines[i] == DecInt(items[i].num) + " " + DecInt(items[i].size)
         else if |items| == 1 then r == Status(true, OneInfo(items[0]))
         else r == Refusal(cfg, Protocol("", "No such message", false)))
    case CallUidl(num) =>
      (match s.uidl(num)
       case Err(e) => r == Refusal(cfg, e)
       case Ok(items) =>
         if num == 0 then
           r.Listing? && r.notice == MessageCount(|items|) && |r.lines| == |items|
           && forall i :: 0 <= i < |items| ==> r.lines[i] == DecInt(items[i].num) + " " + Sanitize(items[i].uid)
         else if |items| == 1 then r == Status(true, OneUid(items[0]))
         else r == Refusal(cfg, Protocol("", "No such message", false)))
    case CallRetr(num) =>
      (match s.retr(num)
       case Err(e) => r == Refusal(cfg, e)
       case Ok(body) =>
         ReportsBody(if body.octets.Some? then Octets(body.octets.value) else MessageFollows, body, r))
    case CallTop(num, lines) =>
      (match s.top(num, lines)
       case Err(e) => r == Refusal(cfg, e)
       case Ok(body) => ReportsBody(TopFollows, body, r))
    case CallDele(num) =>
      (match s.dele(num)
       case Err(e) => r == Refusal(cfg, e)
       case Ok(_) => r == Status(true, Deleted))
    case CallRset =>
      (match s.rset
       case Err(e) => r == Refusal(cfg, e)
       case Ok(_) => r == Status(true, WasReset))
    case CallNoop =>
      (match s.noop
       case Err(e) => r == Refusal(cfg, e)
       case Ok(_) => r == Status(true, Done))
    case CallQuit =>
      (match s.quit
       case Err(e) => r == Refusal(cfg, e)
       case Ok(n) => r == Status(true, if n > 0 then Expunged(n) else Goodbye))
    case CallListLanguages =>
      s.lang.Some?
      && (match s.lang.value.list
          case Err(e) => r == Refusal(cfg, e)
          case Ok(langs) =>
            r.Listing? && r.notice == LanguagesFollow && |r.lines| == |langs|
            && forall i :: 0 <= i < |langs| ==>
                 r.lines[i] == Sanitize(langs[i].tag) + " " + Sanitize(langs[i].description))
    case CallSetLanguage(tag) =>
      s.lang.Some?
      && (match s.lang.value.set_(tag)
          case Err(e) => r == Refusal(cfg, e)
          case Ok(set_) => r == Status(true, LanguageSet(set_)))
    case CallEnableUTF8 =>
      s.utf8.Some?
      && (match s.utf8.value
          case Err(e) => r == Refusal(cfg, e)
          case Ok(_) => r == Status(true, Utf8Enabled))
    case CallClose => false
  }

  // ----- What is counted -----

  /** The errors that are the client's own. */
  predicate Fault(r: Response) {
    r.Status? && !r.ok
    && match r.notice
       case TlsFirst => true case UserSyntax => true case BadUsername => true case UserFirst => true
       case PassSyntax => true case NoSasl => true case BadMechanism => true case BadPlain => true
       case AlreadyTLS => true case NoTLS => true case PipelinedAfterSTLS => true case NumberRequired => true
       case BadNumber => true case TopSyntax => true case BadLines => true case NotAuthenticated => true
       case UnknownCommand(_) => true case NoLang => true case NoUtf8 => true
       case _ => false
  }

  predicate RejectedLogin(x: Call) {
    (x.CallLogin? || x.CallPlain?) && x.reply.Rejected?
  }

  predicate LoginRejected(e: Effect) {
    |e.calls| == 1 && RejectedLogin(e.calls[0])
  }

  /** A fault counts one, and a rejected login unless such are exempt. */
  function Cost(cfg: Config, e: Effect): nat {
    if Fault(e.response) || (LoginRejected(e) && !cfg.exemptAuthFailures) then 1 else 0
  }

  /** One sleep of `count` delays, or of the longest allowed where one is set; none without a
      delay. */
  predicate SleepsFor(cfg: Config, count: nat, delays: seq<int>) {
    if cfg.errorDelay <= 0 then delays == []
    else
      |delays| == 1
      && (cfg.maxErrorDelay <= 0 || count * cfg.errorDelay <= cfg.maxErrorDelay ==> delays[0] == count * cfg.errorDelay)
      && (cfg.maxErrorDelay > 0 && count * cfg.errorDelay > cfg.maxErrorDelay ==> delays[0] == cfg.maxErrorDelay)
  }

  /** What holds of every command: at most one call of the session, and its reply reported; the
      error count raised by exactly the cost; one sleep for the count reached after a fault or a
      rejected login, and none otherwise. */
  predicate Judged(cfg: Config, st: ConnState, s: Session, e: Effect) {
    && |e.calls| <= 1
    && (e.calls != [] ==> Reports(cfg, s, e.calls[0], e.response) && !Fault(e.response))
    && e.next.errorCount == st.errorCount + Cost(cfg, e)
    && (if Fault(e.response) || LoginRejected(e) then SleepsFor(cfg, e.next.errorCount, e.delays) else e.delays == [])
  }

  lemma DelaySleeps(cfg: Config, count: nat)
    ensures SleepsFor(cfg, count, Delay(cfg, count))
  {
  }

  lemma FaultJudged(cfg: Config, st: ConnState, s: Session, n: Notice)
    requires Fault(Status(false, n))
    ensures Judged(cfg, st, s, ClientError(cfg, st, n))
  {
    hide Delay, SleepsFor;
    DelaySleeps(cfg, st.errorCount + 1);
  }

  /** An answer or a refusal after a call that is no login. */
  lemma CallJudged(cfg: Config, st: ConnState, s: Session, e: Effect, x: Call)
    requires e.calls == [x] && !x.CallLogin? && !x.CallPlain? && Reports(cfg, s, x, e.response)
    requires e.next.errorCount == st.errorCount && e.delays == []
    ensures Judged(cfg, st, s, e)
  {
  }

  lemma LoginJudged(cfg: Config, st: ConnState, s: Session, reply: AuthReply, x: Call)
    requires (x.CallLogin? && x.reply == reply == s.login(x.username, x.password))
             || (x.CallPlain? && x.reply == reply == s.plain(x.identity, x.username, x.password))
    ensures Judged(cfg, st, s, Authenticated(cfg, st, reply, x))
  {
    hide Delay, SleepsFor, Reports;
    DelaySleeps(cfg, st.errorCount);
    DelaySleeps(cfg, st.errorCount + 1);
    LoginReported(cfg, st, s, reply, x);
  }

  lemma LoginReported(cfg: Config, st: ConnState, s: Session, reply: AuthReply, x: Call)
    requires (x.CallLogin? && x.reply == reply == s.login(x.username, x.password))
             || (x.CallPlain? && x.reply == reply == s.plain(x.identity, x.username, x.password))
    ensures Reports(cfg, s, x, Authenticated(cfg, st, reply, x).response)
  {
    hide Delay;
  }

  lemma FinishAuthJudged(cfg: Config, st: ConnState, encoded: string, env: Env)
    ensures Judged(cfg, st, env.session, FinishAuth(cfg, st, encoded, env))
    ensures Judged(cfg, st, env.session, FinishAuth(cfg, st, encoded, env).(prompted := true))
  {
    hide Authenticated, ClientError, SleepsFor, Reports, Sasl.DecodePlain;
    if encoded != "*" {
      match Sasl.DecodePlain(encoded)
      case None => FaultJudged(cfg, st, env.session, BadPlain);
      case Some(c) =>
        var reply := env.session.plain(c.identity, c.username, c.password);
        LoginJudged(cfg, st, env.session, reply,
                    CallPlain(c.identity, c.username, c.password, st.isTLS, reply));
    }
  }

  lemma AuthJudged(cfg: Config, st: ConnState, args: seq<string>, env: Env)
    ensures Judged(cfg, st, env.session, HandleAuth(cfg, st, args, env))
  {
    hide FinishAuth, ClientError, SleepsFor, Reports, Contains, ToUpper;
    FaultJudged(cfg, st, env.session, TlsFirst);
    FaultJudged(cfg, st, env.session, NoSasl);
    FaultJudged(cfg, st, env.session, BadMechanism);
    if |args| > 1 {
      FinishAuthJudged(cfg, st, args[1], env);
    }
    if env.continuation.Some? {
      FinishAuthJudged(cfg, st, TrimSpace(env.continuation.value), env);
    }
  }

  lemma PassJudged(cfg: Config, st: ConnState, raw: string, env: Env)
    ensures Judged(cfg, st, env.session, HandlePass(cfg, st, raw, env))
  {
    hide Authenticated, ClientError, SleepsFor, Reports;
    FaultJudged(cfg, st, env.session, TlsFirst);
    FaultJudged(cfg, st, env.session, UserFirst);
    FaultJudged(cfg, st, env.session, PassSyntax);
    var reply := env.session.login(st.username, raw);
    LoginJudged(cfg, st, env.session, reply, CallLogin(st.username, raw, st.isTLS, reply));
  }

  lemma QuietJudged(cfg: Config, st: ConnState, s: Session, e: Effect)
    requires e.calls == [] && !Fault(e.response) && e.next.errorCount == st.errorCount && e.delays == []
    ensures Judged(cfg, st, s, e)
  {
  }

  lemma StlsJudged(cfg: Config, st: ConnState, env: Env)
    ensures Judged(cfg, st, env.session, HandleSTLS(cfg, st, env))
  {
    hide Delay, SleepsFor, Reports;
    DelaySleeps(cfg, st.errorCount + 1);
  }

  lemma UserJudged(cfg: Config, st: ConnState, args: seq<string>, env: Env)
    ensures Judged(cfg, st, env.session, HandleUser(cfg, st, args))
    ensures Judged(cfg, st, env.session, HandleCapa(cfg, st, env))
  {
    hide Judged, ClientError, Advertised, CapLines;
    FaultJudged(cfg, st, env.session, TlsFirst);
    FaultJudged(cfg, st, env.session, UserSyntax);
    FaultJudged(cfg, st, env.session, BadUsername);
    QuietJudged(cfg, st, env.session, HandleCapa(cfg, st, env));
    if args != [] {
      QuietJudged(cfg, st, env.session, Answer(st.(username := args[0]), Status(true, Done), []));
    }
  }

  lemma ListingLanguages(cfg: Config, st: ConnState, env: Env)
    requires env.session.lang.Some?
    ensures Judged(cfg, st, env.session, HandleLang(cfg, st, [], env))
  {
    hide ClientError, SleepsFor, Judged;
    CallJudged(cfg, st, env.session, HandleLang(cfg, st, [], env), CallListLanguages);
  }

  lemma SettingLanguage(cfg: Config, st: ConnState, args: seq<string>, env: Env)
    requires env.session.lang.Some? && args != []
    ensures Judged(cfg, st, env.session, HandleLang(cfg, st, args, env))
  {
    hide ClientError, SleepsFor, Judged, LangLines;
    CallJudged(cfg, st, env.session, HandleLang(cfg, st, args, env), CallSetLanguage(args[0]));
  }

  lemma LangJudged(cfg: Config, st: ConnState, args: seq<string>, env: Env)
    ensures Judged(cfg, st, env.session, HandleLang(cfg, st, args, env))
  {
    hide ClientError, Judged, LangLines;
    if env.session.lang.None? {
      FaultJudged(cfg, st, env.session, NoLang);
    } else if args == [] {
      ListingLanguages(cfg, st, env);
    } else {
      SettingLanguage(cfg, st, args, env);
    }
  }

  lemma Utf8Judged(cfg: Config, st: ConnState, env: Env)
    ensures Judged(cfg, st, env.session, HandleUTF8(cfg, st, env))
  {
    hide ClientError, SleepsFor, Judged;
    match env.session.utf8
    case None => FaultJudged(cfg, st, env.session, NoUtf8);
    case Some(_) => CallJudged(cfg, st, env.session, HandleUTF8(cfg, st, env), CallEnableUTF8);
  }

  lemma ListJudged(cfg: Config, st: ConnState, args: seq<string>, env: Env)
    ensures Judged(cfg, st, env.session, HandleList(cfg, st, args, env))
  {
    hide ClientError, SleepsFor, Judged, ParseOptionalMsgNum;
    OptionalNumber(args);
    match ParseOptionalMsgNum(args)
    case Bad(n) => FaultJudged(cfg, st, env.session, n);
    case Good(num) => CallJudged(cfg, st, env.session, HandleList(cfg, st, args, env), CallList(num));
  }

  lemma UidlJudged(cfg: Config, st: ConnState, args: seq<string>, env: Env)
    ensures Judged(cfg, st, env.session, HandleUidl(cfg, st, args, env))
  {
    hide ClientError, SleepsFor, Judged, ParseOptionalMsgNum;
    OptionalNumber(args);
    match ParseOptionalMsgNum(args)
    case Bad(n) => FaultJudged(cfg, st, env.session, n);
    case Good(num) => CallJudged(cfg, st, env.session, HandleUidl(cfg, st, args, env), CallUidl(num));
  }

  lemma OptionalNumber(args: seq<string>)
    ensures ParseOptionalMsgNum(args).Bad? ==> Fault(Status(false, ParseOptionalMsgNum(args).error))
    ensures ParseMsgNum(args).Bad? ==> Fault(Status(false, ParseMsgNum(args).error))
  {
    hide ParseMsgNum;
  }

  lemma RetrJudged(cfg: Config, st: ConnState, args: seq<string>, env: Env)
    ensures Judged(cfg, st, env.session, HandleRetr(cfg, st, args, env))
  {
    hide ClientError, SleepsFor, Judged, ParseMsgNum, Concat;
    OptionalNumber(args);
    match ParseMsgNum(args)
    case Bad(n) => FaultJudged(cfg, st, env.session, n);
    case Good(num) => CallJudged(cfg, st, env.session, HandleRetr(cfg, st, args, env), CallRetr(num));
  }

  lemma DeleJudged(cfg: Config, st: ConnState, args: seq<string>, env: Env)
    ensures Judged(cfg, st, env.session, HandleDele(cfg, st, args, env))
  {
    hide ClientError, SleepsFor, Judged, ParseMsgNum, Concat;
    OptionalNumber(args);
    match ParseMsgNum(args)
    case Bad(n) => FaultJudged(cfg, st, env.session, n);
    case Good(num) => CallJudged(cfg, st, env.session, HandleDele(cfg, st, args, env), CallDele(num));
  }

  lemma TopJudged(cfg: Config, st: ConnState, args: seq<string>, env: Env)
    ensures Judged(cfg, st, env.session, HandleTop(cfg, st, args, env))
  {
    hide ClientError, SleepsFor, Judged, ParseMsgNum, ParseNumber, Concat;
    FaultJudged(cfg, st, env.session, TopSyntax);
    FaultJudged(cfg, st, env.session, BadLines);
    if |args| >= 2 {
      OptionalNumber(args[..1]);
      match ParseMsgNum(args[..1])
      case Bad(n) => FaultJudged(cfg, st, env.session, n);
      case Good(num) =>
        if ParseNumber(args[1]).Some? {
          CallJudged(cfg, st, env.session, HandleTop(cfg, st, args, env), CallTop(num, ParseNumber(args[1]).value));
        }
    }
  }

  lemma StatJudged(cfg: Config, st: ConnState, env: Env)
    ensures Judged(cfg, st, env.session, HandleStat(cfg, st, env))
  {
    hide Judged;
    CallJudged(cfg, st, env.session, HandleStat(cfg, st, env), CallStat);
  }

  lemma RsetJudged(cfg: Config, st: ConnState, env: Env)
    ensures Judged(cfg, st, env.session, HandleRset(cfg, st, env))
  {
    hide Judged;
    CallJudged(cfg, st, env.session, HandleRset(cfg, st, env), CallRset);
  }

  lemma NoopJudged(cfg: Config, st: ConnState, env: Env)
    ensures Judged(cfg, st, env.session, HandleNoop(cfg, st, env))
  {
    hide Judged;
    CallJudged(cfg, st, env.session, HandleNoop(cfg, st, env), CallNoop);
  }

  lemma QuitJudged(cfg: Config, st: ConnState, env: Env)
    ensures Judged(cfg, st, env.session, HandleQuit(cfg, st, env))
  {
    hide Judged;
    CallJudged(cfg, st, env.session, HandleQuit(cfg, st, env), CallQuit);
  }

  lemma PlainlyJudged(cfg: Config, st: ConnState, s: Session)
    ensures Judged(cfg, st, s, Answer(st, Status(false, LastIsObsolete), []))
    ensures Judged(cfg, st, s, Answer(st, Status(true, Goodbye), []).(quit := true))
  {
    hide Reports, SleepsFor;
  }

  lemma AuthorizationJudged(cfg: Config, st: ConnState, c: Command, env: Env)
    ensures Judged(cfg, st, env.session, DispatchAuth(cfg, st, c, env))
  {
    hide Judged, ClientError, HandleCapa, HandleUser, HandlePass, HandleAuth, HandleSTLS, HandleUTF8, HandleLang;
    StlsJudged(cfg, st, env);
    UserJudged(cfg, st, c.args, env);
    PassJudged(cfg, st, c.raw, env);
    AuthJudged(cfg, st, c.args, env);
    Utf8Judged(cfg, st, env);
    LangJudged(cfg, st, c.args, env);
    PlainlyJudged(cfg, st, env.session);
    FaultJudged(cfg, st, env.session, NotAuthenticated);
    if c.verb.Other? {
      FaultJudged(cfg, st, env.session, UnknownCommand(c.verb.name));
    }
  }

  lemma TransactionJudged(cfg: Config, st: ConnState, c: Command, env: Env)
    ensures Judged(cfg, st, env.session, DispatchTransaction(cfg, st, c, env))
  {
    hide Judged, ClientError, HandleCapa, HandleStat, HandleList, HandleUidl, HandleRetr, HandleTop, HandleDele,
         HandleRset, HandleNoop, HandleQuit, HandleLang, HandleUTF8;
    UserJudged(cfg, st, c.args, env);
    StatJudged(cfg, st, env);
    RsetJudged(cfg, st, env);
    NoopJudged(cfg, st, env);
    QuitJudged(cfg, st, env);
    ListJudged(cfg, st, c.args, env);
    UidlJudged(cfg, st, c.args, env);
    RetrJudged(cfg, st, c.args, env);
    DeleJudged(cfg, st, c.args, env);
    TopJudged(cfg, st, c.args, env);
    Utf8Judged(cfg, st, env);
    LangJudged(cfg, st, c.args, env);
    PlainlyJudged(cfg, st, env.session);
    FaultJudged(cfg, st, env.session, UnknownCommand(NameOf(c.verb)));
  }

  /** Every command, in either state and whatever the session replies. */
  lemma DispatchJudged(cfg: Config, st: ConnState, c: Command, env: Env)
    ensures Judged(cfg, st, env.session, Dispatch(cfg, st, c, env))
  {
    hide Judged, DispatchAuth, DispatchTransaction;
    AuthorizationJudged(cfg, st, c, env);
    TransactionJudged(cfg, st, c, env);
  }
}
