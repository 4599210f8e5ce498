/** The specification of the server's side of a connection: what one command does. A command
    is answered from the connection's state, the configuration and the environment; all that
    the server cannot know beforehand (the session's answers, the next line read, the TLS
    handshake, failing writes) is a part of the environment. */
module Protocol {
  import opened Lines
  import opened Text
  import opened Numbers
  import opened Sessions
  import DotStuff
  import DotStuffWriters
  import Sasl

  datatype Capability = Capability(name: string, params: seq<string>)

  datatype Config = Config(
    greeting: string,
    insecureAuth: bool,
    tlsAvailable: bool,
    maxLineLength: int,
    bufferSize: nat,
    maxErrors: int,
    errorDelay: int,
    maxErrorDelay: int,
    exemptAuthFailures: bool,
    strictSessionErrors: bool,
    caps: seq<Capability>,
    suppressedCaps: seq<string>
  )

  datatype ConnState = ConnState(
    authenticated: bool,
    username: string,
    errorCount: nat,
    isTLS: bool,
    hijacked: bool,
    closePending: bool
  )

  datatype Env = Env(
    session: Session,
    continuation: Option<string>,
    pipelined: bool,
    handshake: bool,
    flushed: bool
  )

  // ----- Commands -----

  datatype Verb =
    | CAPA | USER | PASS | AUTH | STLS | QUIT | UTF8 | LANG | LAST
    | STAT | LIST | UIDL | RETR | TOP | DELE | RSET | NOOP
    | Other(name: string)

  function ParseVerb(name: string): Verb {
    if name == "CAPA" then CAPA else if name == "USER" then USER
    else if name == "PASS" then PASS else if name == "AUTH" then AUTH
    else if name == "STLS" then STLS else if name == "QUIT" then QUIT
    else if name == "UTF8" then UTF8 else if name == "LANG" then LANG
    else if name == "LAST" then LAST else if name == "STAT" then STAT
    else if name == "LIST" then LIST else if name == "UIDL" then UIDL
    else if name == "RETR" then RETR else if name == "TOP" then TOP
    else if name == "DELE" then DELE else if name == "RSET" then RSET
    else if name == "NOOP" then NOOP else Other(name)
  }

  datatype Command = Command(verb: Verb, args: seq<string>, raw: string)

  /** A trimmed, non-empty line as a command. */
  function ParseCommand(line: string): Command {
    var (verb, raw) := SplitCommand(line);
    Command(ParseVerb(ToUpper(verb)), Fields(raw), raw)
  }

  // ----- Responses -----

  /** What a response line says. */
  datatype Notice =
    // Successes
    | Greeting(text: string)
    | Done
    | LoggedIn
    | BeginTLS
    | Deleted
    | WasReset
    | Goodbye
    | Utf8Enabled
    | LanguageSet(tag: string)
    | Totals(count: int, size: int)
    | OneInfo(info: Info)
    | OneUid(uid: Uid)
    | Expunged(count: int)
    | Mechanisms
    | CapabilitiesFollow
    | LanguagesFollow
    | MessageCount(count: int)
    | MessageFollows
    | Octets(octets: int)
    | TopFollows
    // Errors of the client
    | TlsFirst
    | UserSyntax
    | BadUsername
    | UserFirst
    | PassSyntax
    | NoSasl
    | BadMechanism
    | BadPlain
    | AlreadyTLS
    | NoTLS
    | PipelinedAfterSTLS
    | NumberRequired
    | BadNumber
    | TopSyntax
    | BadLines
    | NotAuthenticated
    | UnknownCommand(name: string)
    | NoLang
    | NoUtf8
    // Other refusals
    | Aborted
    | LastIsObsolete
    | OfSession(error: SessionError, strict: bool)
    | TooManyErrors
    | TooLongLine
    | IdleTooLong
    | SessionTooLong

  /** What the server answers: a status line, a status line and a list of lines, or a status
      line and a body, which is broken when its reader failed. */
  datatype Response =
    | NoResponse
    | Status(ok: bool, notice: Notice)
    | Listing(notice: Notice, lines: seq<string>)
    | Message(notice: Notice, body: string)
    | Broken(notice: Notice, partial: string)

  function WireMessage(code: string, message: string): string {
    var msg := if message == "" then "internal error" else message;
    if code == "" then msg else "[" + ToUpper(code) + "] " + msg
  }

  function ErrorText(e: SessionError, strict: bool): string {
    match e
    case Protocol(code, message, _) => WireMessage(code, message)
    case CloseConnection => "internal error"
    case Plain(text) => if strict then "internal error" else text
  }

  function ListLine(i: Info): string {
    DecInt(i.num) + " " + DecInt(i.size)
  }

  function UidlLine(u: Uid): string {
    DecInt(u.num) + " " + Sanitize(u.uid)
  }

  function LangLine(l: Language): string {
    Sanitize(l.tag) + " " + Sanitize(l.description)
  }

  /** The message of a notice, before it is made safe for its line. */
  function MessageOf(n: Notice): string {
    match n
    case Greeting(text) => text
    case Done => ""
    case LoggedIn => "Authentication successful"
    case BeginTLS => "Begin TLS negotiation"
    case Deleted => "Message deleted"
    case WasReset => "Maildrop has been reset"
    case Goodbye => "Goodbye"
    case Utf8Enabled => "UTF8 mode enabled"
    case LanguageSet(tag) => "Language set to " + Sanitize(tag)
    case Totals(count, size) => DecInt(count) + " " + DecInt(size)
    case OneInfo(i) => ListLine(i)
    case OneUid(u) => UidlLine(u)
    case Expunged(count) => DecInt(count) + " messages expunged"
    case Mechanisms => ""
    case CapabilitiesFollow => "Capability list follows"
    case LanguagesFollow => "Language list follows"
    case MessageCount(count) => DecInt(count) + " messages"
    case MessageFollows => "Message follows"
    case Octets(octets) => DecInt(octets) + " octets"
    case TopFollows => "Top of message follows"
    case TlsFirst => "Authentication requires TLS. Use STLS first"
    case UserSyntax => "Syntax: USER <username>"
    case BadUsername => "Invalid username"
    case UserFirst => "Send USER first"
    case PassSyntax => "Syntax: PASS <password>"
    case NoSasl => "SASL not supported"
    case BadMechanism => "Unsupported SASL mechanism"
    case BadPlain => "Invalid SASL PLAIN response"
    case AlreadyTLS => "Already using TLS"
    case NoTLS => "TLS not available"
    case PipelinedAfterSTLS => "Pipelining after STLS not permitted"
    case NumberRequired => "message number required"
    case BadNumber => "invalid message number"
    case TopSyntax => "Syntax: TOP <msg> <lines>"
    case BadLines => "Invalid number of lines"
    case NotAuthenticated => "Not authenticated"
    case UnknownCommand(name) => "Unknown command: " + name
    case NoLang => "LANG not supported"
    case NoUtf8 => "UTF8 not supported"
    case Aborted => "Authentication aborted"
    case LastIsObsolete => "LAST is obsolete (RFC 1939)"
    case OfSession(e, strict) => ErrorText(e, strict)
    case TooManyErrors => "Too many errors, closing connection"
    case TooLongLine => "Line too long"
    case IdleTooLong => "Idle timeout, connection timed out"
    case SessionTooLong => "[IN-USE] Maximum session duration exceeded"
  }

  /** A status line: the indicator, then nothing or a space and the message, its CRs and LFs
      removed. */
  function StatusLine(ok: bool, msg: string): string {
    (if ok then "+OK" else "-ERR") + if msg == "" then "" else " " + Sanitize(msg)
  }

  function NoticeLine(ok: bool, n: Notice): string {
    StatusLine(ok, MessageOf(n)) + CRLF
  }

  function Render(r: Response): string {
    match r
    case NoResponse => ""
    case Status(ok, n) => NoticeLine(ok, n)
    case Listing(n, lines) => NoticeLine(true, n) + Block(lines) + "." + CRLF
    case Message(n, body) => NoticeLine(true, n) + DotStuff.Stuffed(body)
    case Broken(n, partial) => NoticeLine(true, n) + DotStuff.Encode(DotStuff.START, partial)
  }

  lemma RenderNothing()
    ensures Render(NoResponse) == ""
  {
  }

  // ----- Calls of the session -----

  datatype Call =
    | CallLogin(username: string, password: string, secure: bool, reply: AuthReply)
    | CallPlain(identity: string, username: string, password: string, secure: bool, reply: AuthReply)
    | CallStat
    | CallList(num: nat)
    | CallUidl(num: nat)
    | CallRetr(num: nat)
    | CallTop(num: nat, lines: nat)
    | CallDele(num: nat)
    | CallRset
    | CallNoop
    | CallQuit
    | CallListLanguages
    | CallSetLanguage(tag: string)
    | CallEnableUTF8
    | CallClose

  // ----- Effects -----

  /** What a command does: the state after it, whether a continuation was prompted for, the
      response, the session calls made, the sleeps requested, and whether it ends the session. */
  datatype Effect = Effect(
    next: ConnState,
    prompted: bool,
    response: Response,
    calls: seq<Call>,
    delays: seq<int>,
    quit: bool
  )

  function Answer(st: ConnState, response: Response, calls: seq<Call>): Effect {
    Effect(st, false, response, calls, [], false)
  }

  /** The progressive, capped back-off after an error, when configured. */
  function Delay(cfg: Config, count: nat): seq<int> {
    if cfg.errorDelay <= 0 then []
    else if cfg.maxErrorDelay > 0 && count * cfg.errorDelay > cfg.maxErrorDelay then [cfg.maxErrorDelay]
    else [count * cfg.errorDelay]
  }

  /** A client protocol error: counted, delayed and answered. */
  function ClientError(cfg: Config, st: ConnState, n: Notice): Effect {
    var st' := st.(errorCount := st.errorCount + 1);
    Effect(st', false, Status(false, n), [], Delay(cfg, st'.errorCount), false)
  }

  predicate AsksToClose(e: SessionError) {
    match e
    case Protocol(_, _, close) => close
    case CloseConnection => true
    case Plain(_) => false
  }

  /** An error of the session: answered, not counted, and honoured when it asks to close. */
  function SessionFailure(cfg: Config, st: ConnState, e: SessionError, calls: seq<Call>): Effect {
    Answer(st.(closePending := st.closePending || AsksToClose(e)),
           Status(false, OfSession(e, cfg.strictSessionErrors)), calls)
  }

  predicate AuthAllowed(cfg: Config, st: ConnState) {
    cfg.insecureAuth || st.isTLS
  }

  // ----- The commands of the AUTHORIZATION state -----

  predicate EqualFold(a: string, b: string) {
    ToUpper(a) == ToUpper(b)
  }

  predicate Contains(names: seq<string>, name: string) {
    exists i :: 0 <= i < |names| && EqualFold(names[i], name)
  }

  function CapLine(cfg: Config, name: string, params: seq<string>): seq<string> {
    if Contains(cfg.suppressedCaps, name) then []
    else if params == [] then [name]
    else [name + " " + Join(params)]
  }

  function CapLines(cfg: Config, caps: seq<Capability>): seq<string> {
    if caps == [] then [] else CapLine(cfg, caps[0].name, caps[0].params) + CapLines(cfg, caps[1..])
  }

  function CapIf(b: bool, name: string, params: seq<string>): seq<Capability> {
    if b then [Capability(name, params)] else []
  }

  function Basic(auth: bool): seq<Capability> {
    CapIf(true, "TOP", []) + CapIf(true, "UIDL", []) + CapIf(auth, "USER", [])
    + CapIf(true, "RESP-CODES", []) + CapIf(true, "PIPELINING", [])
  }

  function Extensions(auth: bool, stls: bool, s: Session): seq<Capability> {
    var mechanisms := if s.mechanisms.Some? then s.mechanisms.value else [];
    CapIf(stls, "STLS", []) + CapIf(auth && mechanisms != [], "SASL", mechanisms)
    + CapIf(s.lang.Some?, "LANG", []) + CapIf(s.utf8.Some?, "UTF8", [])
  }

  /** The capabilities advertised, in the order they are written. */
  function Advertised(cfg: Config, st: ConnState, s: Session): seq<Capability> {
    Basic(AuthAllowed(cfg, st)) + Extensions(AuthAllowed(cfg, st), cfg.tlsAvailable && !st.isTLS, s) + cfg.caps
  }

  function HandleCapa(cfg: Config, st: ConnState, env: Env): Effect {
    Answer(st, Listing(CapabilitiesFollow, CapLines(cfg, Advertised(cfg, st, env.session))), [])
  }

  function HandleUser(cfg: Config, st: ConnState, args: seq<string>): Effect {
    if !AuthAllowed(cfg, st) then ClientError(cfg, st, TlsFirst)
    else if |args| < 1 then ClientError(cfg, st, UserSyntax)
    else if ContainsCTL(args[0]) then ClientError(cfg, st, BadUsername)
    else Answer(st.(username := args[0]), Status(true, Done), [])
  }

  /** What follows a call of Login or AuthenticatePlain. */
  function Authenticated(cfg: Config, st: ConnState, reply: AuthReply, call: Call): Effect {
    match reply
    case Accepted => Answer(st.(authenticated := true), Status(true, LoggedIn), [call])
    case Hijacked => Answer(st.(hijacked := true), NoResponse, [call])
    case Rejected(e) =>
      var st' := if cfg.exemptAuthFailures then st else st.(errorCount := st.errorCount + 1);
      SessionFailure(cfg, st', e, [call]).(delays := Delay(cfg, st'.errorCount))
  }

  function HandlePass(cfg: Config, st: ConnState, raw: string, env: Env): Effect {
    if !AuthAllowed(cfg, st) then ClientError(cfg, st, TlsFirst)
    else if st.username == "" then ClientError(cfg, st, UserFirst)
    else if raw == "" then ClientError(cfg, st, PassSyntax)
    else
      var reply := env.session.login(st.username, raw);
      Authenticated(cfg, st, reply, CallLogin(st.username, raw, st.isTLS, reply))
  }

  function Decoded(cfg: Config, st: ConnState, c: Option<Sasl.Credentials>, env: Env): Effect {
    match c
    case None => ClientError(cfg, st, BadPlain)
    case Some(c) =>
      var reply := env.session.plain(c.identity, c.username, c.password);
      Authenticated(cfg, st, reply, CallPlain(c.identity, c.username, c.password, st.isTLS, reply))
  }

  function FinishAuth(cfg: Config, st: ConnState, encoded: string, env: Env): Effect {
    if encoded == "*" then Answer(st, Status(false, Aborted), [])
    else Decoded(cfg, st, Sasl.DecodePlain(encoded), env)
  }

  function HandleAuth(cfg: Config, st: ConnState, args: seq<string>, env: Env): Effect {
    if !AuthAllowed(cfg, st) then ClientError(cfg, st, TlsFirst)
    else if env.session.mechanisms.None? then ClientError(cfg, st, NoSasl)
    else if |args| < 1 then Answer(st, Listing(Mechanisms, env.session.mechanisms.value), [])
    else if ToUpper(args[0]) != "PLAIN" || !Contains(env.session.mechanisms.value, "PLAIN") then
      ClientError(cfg, st, BadMechanism)
    else if |args| > 1 then FinishAuth(cfg, st, args[1], env)
    else Prompted(cfg, st, env)
  }

  /** The prompt for the response and what follows it; without one the connection is dropped. */
  function Prompted(cfg: Config, st: ConnState, env: Env): Effect {
    match env.continuation
    case None => Effect(st.(closePending := true), true, NoResponse, [], [], false)
    case Some(line) => FinishAuth(cfg, st, TrimSpace(line), env).(prompted := true)
  }

  function HandleSTLS(cfg: Config, st: ConnState, env: Env): Effect {
    if st.isTLS then ClientError(cfg, st, AlreadyTLS)
    else if !cfg.tlsAvailable then ClientError(cfg, st, NoTLS)
    else if env.pipelined then
      var e := ClientError(cfg, st, PipelinedAfterSTLS);
      e.(next := e.next.(closePending := true))
    else if !env.handshake then
      Answer(st.(closePending := true), Status(true, BeginTLS), [])
    else
      Answer(st.(isTLS := true, username := ""), Status(true, BeginTLS), [])
  }

  // ----- The commands of the TRANSACTION state -----

  /** A message number argument: a number in range that is not zero. */
  function ParseMsgNum(args: seq<string>): (r: Result<nat, Notice>)
    ensures r.Good? ==> r.value >= 1
    ensures r.Bad? ==> r.error == NumberRequired || r.error == BadNumber
  {
    if |args| < 1 then Bad(NumberRequired)
    else
      match ParseNumber(args[0])
      case None => Bad(BadNumber)
      case Some(n) => if n < 1 then Bad(BadNumber) else Good(n)
  }

  datatype Result<+T, +E> = Good(value: T) | Bad(error: E)

  function ParseOptionalMsgNum(args: seq<string>): Result<nat, Notice> {
    if |args| == 0 then Good(0) else ParseMsgNum(args)
  }

  function HandleStat(cfg: Config, st: ConnState, env: Env): Effect {
    match env.session.stat
    case Err(e) => SessionFailure(cfg, st, e, [CallStat])
    case Ok(v) => Answer(st, Status(true, Totals(v.0, v.1)), [CallStat])
  }

  const NO_SUCH_MESSAGE := Protocol("", "No such message", false)

  function ListLines(items: seq<Info>): (lines: seq<string>)
    ensures |lines| == |items|
    ensures forall i :: 0 <= i < |items| ==> lines[i] == ListLine(items[i])
  {
    if items == [] then [] else [ListLine(items[0])] + ListLines(items[1..])
  }

  function HandleList(cfg: Config, st: ConnState, args: seq<string>, env: Env): Effect {
    match ParseOptionalMsgNum(args)
    case Bad(msg) => ClientError(cfg, st, msg)
    case Good(num) =>
      match env.session.list(num)
      case Err(e) => SessionFailure(cfg, st, e, [CallList(num)])
      case Ok(items) =>
        if num > 0 then
          if |items| != 1 then SessionFailure(cfg, st, NO_SUCH_MESSAGE, [CallList(num)])
          else Answer(st, Status(true, OneInfo(items[0])), [CallList(num)])
        else Answer(st, Listing(MessageCount(|items|), ListLines(items)), [CallList(num)])
  }

  function UidlLines(items: seq<Uid>): (lines: seq<string>)
    ensures |lines| == |items|
    ensures forall i :: 0 <= i < |items| ==> lines[i] == UidlLine(items[i])
  {
    if items == [] then [] else [UidlLine(items[0])] + UidlLines(items[1..])
  }

  function HandleUidl(cfg: Config, st: ConnState, args: seq<string>, env: Env): Effect {
    match ParseOptionalMsgNum(args)
    case Bad(msg) => ClientError(cfg, st, msg)
    case Good(num) =>
      match env.session.uidl(num)
      case Err(e) => SessionFailure(cfg, st, e, [CallUidl(num)])
      case Ok(items) =>
        if num > 0 then
          if |items| != 1 then SessionFailure(cfg, st, NO_SUCH_MESSAGE, [CallUidl(num)])
          else Answer(st, Status(true, OneUid(items[0])), [CallUidl(num)])
        else Answer(st, Listing(MessageCount(|items|), UidlLines(items)), [CallUidl(num)])
  }

  /** A body after its status line: complete, or cut off by a read error, which drops the
      connection because nothing can follow an unterminated body. */
  function SendBody(st: ConnState, n: Notice, body: Body, call: Call): Effect {
    var data := DotStuffWriters.Concat(body.chunks);
    if body.failed then Answer(st.(closePending := true), Broken(n, data), [call])
    else Answer(st, Message(n, data), [call])
  }

  function HandleRetr(cfg: Config, st: ConnState, args: seq<string>, env: Env): Effect {
    match ParseMsgNum(args)
    case Bad(msg) => ClientError(cfg, st, msg)
    case Good(num) =>
      match env.session.retr(num)
      case Err(e) => SessionFailure(cfg, st, e, [CallRetr(num)])
      case Ok(body) =>
        var n := if body.octets.Some? then Octets(body.octets.value) else MessageFollows;
        SendBody(st, n, body, CallRetr(num))
  }

  function HandleTop(cfg: Config, st: ConnState, args: seq<string>, env: Env): Effect {
    if |args| < 2 then ClientError(cfg, st, TopSyntax)
    else
      match ParseMsgNum(args[..1])
      case Bad(msg) => ClientError(cfg, st, msg)
      case Good(num) =>
        match ParseNumber(args[1])
        case None => ClientError(cfg, st, BadLines)
        case Some(lines) =>
          match env.session.top(num, lines)
          case Err(e) => SessionFailure(cfg, st, e, [CallTop(num, lines)])
          case Ok(body) => SendBody(st, TopFollows, body, CallTop(num, lines))
  }

  function HandleDele(cfg: Config, st: ConnState, args: seq<string>, env: Env): Effect {
    match ParseMsgNum(args)
    case Bad(msg) => ClientError(cfg, st, msg)
    case Good(num) =>
      match env.session.dele(num)
      case Err(e) => SessionFailure(cfg, st, e, [CallDele(num)])
      case Ok(_) => Answer(st, Status(true, Deleted), [CallDele(num)])
  }

  function HandleRset(cfg: Config, st: ConnState, env: Env): Effect {
    match env.session.rset
    case Err(e) => SessionFailure(cfg, st, e, [CallRset])
    case Ok(_) => Answer(st, Status(true, WasReset), [CallRset])
  }

  function HandleNoop(cfg: Config, st: ConnState, env: Env): Effect {
    match env.session.noop
    case Err(e) => SessionFailure(cfg, st, e, [CallNoop])
    case Ok(_) => Answer(st, Status(true, Done), [CallNoop])
  }

  function HandleQuit(cfg: Config, st: ConnState, env: Env): Effect {
    var e := match env.session.quit
             case Err(e) => SessionFailure(cfg, st, e, [CallQuit])
             case Ok(n) =>
               if n > 0 then Answer(st, Status(true, Expunged(n)), [CallQuit])
               else Answer(st, Status(true, Goodbye), [CallQuit]);
    e.(quit := true)
  }

  // ----- LANG and UTF8, valid in both states -----

  function LangLines(langs: seq<Language>): (lines: seq<string>)
    ensures |lines| == |langs|
    ensures forall i :: 0 <= i < |langs| ==> lines[i] == LangLine(langs[i])
  {
    if langs == [] then [] else [LangLine(langs[0])] + LangLines(langs[1..])
  }

  function HandleLang(cfg: Config, st: ConnState, args: seq<string>, env: Env): Effect {
    match env.session.lang
    case None => ClientError(cfg, st, NoLang)
    case Some(lang) =>
      if |args| == 0 then
        match lang.list
        case Err(e) => SessionFailure(cfg, st, e, [CallListLanguages])
        case Ok(langs) => Answer(st, Listing(LanguagesFollow, LangLines(langs)), [CallListLanguages])
      else
        match lang.set_(args[0])
        case Err(e) => SessionFailure(cfg, st, e, [CallSetLanguage(args[0])])
        case Ok(tag) =>
          Answer(st, Status(true, LanguageSet(tag)), [CallSetLanguage(args[0])])
  }

  function HandleUTF8(cfg: Config, st: ConnState, env: Env): Effect {
    match env.session.utf8
    case None => ClientError(cfg, st, NoUtf8)
    case Some(Err(e)) => SessionFailure(cfg, st, e, [CallEnableUTF8])
    case Some(Ok(_)) => Answer(st, Status(true, Utf8Enabled), [CallEnableUTF8])
  }

  function NameOf(v: Verb): string {
    match v
    case CAPA => "CAPA" case USER => "USER" case PASS => "PASS" case AUTH => "AUTH"
    case STLS => "STLS" case QUIT => "QUIT" case UTF8 => "UTF8" case LANG => "LANG"
    case LAST => "LAST" case STAT => "STAT" case LIST => "LIST" case UIDL => "UIDL"
    case RETR => "RETR" case TOP => "TOP" case DELE => "DELE" case RSET => "RSET"
    case NOOP => "NOOP" case Other(name) => name
  }

  /** Parsing the verb loses nothing. */
  lemma VerbNames(name: string)
    ensures NameOf(ParseVerb(name)) == name
  {
  }

  function DispatchAuth(cfg: Config, st: ConnState, c: Command, env: Env): Effect {
    match c.verb
    case CAPA => HandleCapa(cfg, st, env)
    case USER => HandleUser(cfg, st, c.args)
    case PASS => HandlePass(cfg, st, c.raw, env)
    case AUTH => HandleAuth(cfg, st, c.args, env)
    case STLS => HandleSTLS(cfg, st, env)
    case QUIT => Answer(st, Status(true, Goodbye), []).(quit := true)
    case UTF8 => HandleUTF8(cfg, st, env)
    case LANG => HandleLang(cfg, st, c.args, env)
    case LAST => Answer(st, Status(false, LastIsObsolete), [])
    case Other(name) => ClientError(cfg, st, UnknownCommand(name))
    case _ => ClientError(cfg, st, NotAuthenticated)
  }

  function DispatchTransaction(cfg: Config, st: ConnState, c: Command, env: Env): Effect {
    match c.verb
    case CAPA => HandleCapa(cfg, st, env)
    case STAT => HandleStat(cfg, st, env)
    case LIST => HandleList(cfg, st, c.args, env)
    case UIDL => HandleUidl(cfg, st, c.args, env)
    case RETR => HandleRetr(cfg, st, c.args, env)
    case TOP => HandleTop(cfg, st, c.args, env)
    case DELE => HandleDele(cfg, st, c.args, env)
    case RSET => HandleRset(cfg, st, env)
    case NOOP => HandleNoop(cfg, st, env)
    case QUIT => HandleQuit(cfg, st, env)
    case LANG => HandleLang(cfg, st, c.args, env)
    case UTF8 => HandleUTF8(cfg, st, env)
    case LAST => Answer(st, Status(false, LastIsObsolete), [])
    case _ => ClientError(cfg, st, UnknownCommand(NameOf(c.verb)))
  }

  function Dispatch(cfg: Config, st: ConnState, c: Command, env: Env): Effect {
    if st.authenticated then DispatchTransaction(cfg, st, c, env) else DispatchAuth(cfg, st, c, env)
  }

  /** A command that a state does not know is refused under the name it was given, in upper
      case, and counted as an error. */
  lemma UnknownUnderItsName(cfg: Config, st: ConnState, line: string, env: Env)
    ensures var c := ParseCommand(line);
            c.verb.Other? || (st.authenticated && c.verb in {USER, PASS, AUTH, STLS})
            ==> Dispatch(cfg, st, c, env) == ClientError(cfg, st, UnknownCommand(ToUpper(SplitCommand(line).0)))
  {
    hide ToUpper, SplitCommand, ParseVerb;
    VerbNames(ToUpper(SplitCommand(line).0));
  }

  // ----- Runs -----

  datatype Failure = LineTooLong | IdleTimeout | AbsoluteTimeout | Disconnected

  datatype Input = Received(line: string) | ReadFailed(failure: Failure)

  datatype Event = Event(input: Input, env: Env)

  /** One command that was answered: its line, the state before it, and what it did. */
  datatype Entry = Entry(line: string, before: ConnState, env: Env, effect: Effect)

  /** A run: the commands answered so far and, accumulated over them, the bytes written, the
      session calls and the sleeps; `farewell` is the closing response, if any. */
  datatype Run = Run(
    st: ConnState,
    live: bool,
    entries: seq<Entry>,
    farewell: Response,
    out: string,
    calls: seq<Call>,
    slept: seq<int>
  )

  predicate MaxErrorsExceeded(cfg: Config, st: ConnState) {
    cfg.maxErrors > 0 && st.errorCount >= cfg.maxErrors
  }

  function PromptOf(e: Effect): string {
    if e.prompted then "+ " + CRLF else ""
  }

  function RenderEffect(e: Effect): string {
    PromptOf(e) + Render(e.response)
  }

  function Courtesy(f: Failure): Response {
    match f
    case LineTooLong => Status(false, TooLongLine)
    case IdleTimeout => Status(false, IdleTooLong)
    case AbsoluteTimeout => Status(false, SessionTooLong)
    case Disconnected => NoResponse
  }

  /** The connection before its first command. */
  function Start(cfg: Config, isTLS: bool, flushed: bool): Run {
    Run(ConnState(false, "", 0, isTLS, false, false), flushed, [], NoResponse,
        Render(Status(true, Greeting(cfg.greeting))),
        if flushed then [] else [CallClose], [])
  }

  predicate WantsToEnd(e: Effect) {
    e.next.hijacked || e.quit || e.next.closePending
  }

  /** The closing response after a command that reaches the error limit. */
  function Closing(cfg: Config, e: Effect): Response {
    if !WantsToEnd(e) && MaxErrorsExceeded(cfg, e.next) then Status(false, TooManyErrors)
    else NoResponse
  }

  predicate Ends(cfg: Config, e: Effect, flushed: bool) {
    WantsToEnd(e) || MaxErrorsExceeded(cfg, e.next) || !flushed
  }

  /** The loop's turn after a command with effect `e`. */
  function Advance(cfg: Config, r: Run, line: string, env: Env, e: Effect): Run {
    var ends := Ends(cfg, e, env.flushed);
    Run(e.next, !ends, r.entries + [Entry(line, r.st, env, e)], Closing(cfg, e),
        r.out + RenderEffect(e) + Render(Closing(cfg, e)),
        r.calls + e.calls + (if ends then [CallClose] else []),
        r.slept + e.delays)
  }

  /** The loop's end when no line could be read. */
  function Abandon(r: Run, f: Failure): Run {
    r.(live := false, farewell := Courtesy(f), out := r.out + Render(Courtesy(f)), calls := r.calls + [CallClose])
  }

  /** One turn of the command loop. */
  function Step(cfg: Config, r: Run, event: Event): Run {
    if !r.live then r
    else
      match event.input
      case ReadFailed(f) => Abandon(r, f)
      case Received(raw) =>
        var line := TrimSpace(raw);
        if line == "" then r
        else Advance(cfg, r, line, event.env, Dispatch(cfg, r.st, ParseCommand(line), event.env))
  }

  function Exec(cfg: Config, r: Run, events: seq<Event>): Run
    decreases |events|
  {
    if events == [] then r else Exec(cfg, Step(cfg, r, events[0]), events[1..])
  }

  lemma {:induction false} ExecConcat(cfg: Config, r: Run, a: seq<Event>, b: seq<Event>)
    ensures Exec(cfg, r, a + b) == Exec(cfg, Exec(cfg, r, a), b)
    decreases |a|
  {
    hide Step;
    if a == [] {
      assert a + b == b;
    } else {
      assert (a + b)[1..] == a[1..] + b;
      ExecConcat(cfg, Step(cfg, r, a[0]), a[1..], b);
    }
  }

  /** A connection that has ended stays as it is. */
  lemma {:induction false} ExecDead(cfg: Config, r: Run, events: seq<Event>)
    requires !r.live
    ensures Exec(cfg, r, events) == r
    decreases |events|
  {
    if events != [] {
      ExecDead(cfg, r, events[1..]);
    }
  }
}
