/** One response per command, in order: the server's output over a whole run parses back, by
    the client's rules of reading, into the greeting and one complete reply per command. */
module Framing {
  import opened Lines
  import opened Text
  import opened Numbers
  import opened Sessions
  import opened Protocol
  import opened DotStuff
  import DotStuffWriters
  import Sasl

  // ----- How a client reads -----

  /** Whether a positive response to the command is followed by lines up to ".". */
  predicate ExpectsLines(c: Command) {
    c.verb in {CAPA, RETR, TOP} || (c.verb in {LIST, UIDL, AUTH, LANG} && c.args == [])
  }

  /** A reply as read: whether a continuation was prompted for, the status line and the lines. */
  datatype Reply = Reply(prompted: bool, status: string, lines: seq<string>)

  function ReadStatus(max: int, c: Command, prompted: bool, s: string): Option<(Reply, string)> {
    match NextLine(max, s)
    case Line(status, rest) =>
      if "+OK" <= status && ExpectsLines(c) then
        match ReadUntilDot(max, rest)
        case Got(lines, r) => Some((Reply(prompted, status, lines), r))
        case Lost => None
      else Some((Reply(prompted, status, []), rest))
    case _ => None
  }

  /** Reads the reply to one command: after AUTH a line "+ " is a prompt, not yet the reply. */
  function ReadReply(max: int, c: Command, s: string): Option<(Reply, string)> {
    match NextLine(max, s)
    case Line(first, rest) =>
      if c.verb == AUTH && first == "+ " then ReadStatus(max, c, true, rest)
      else ReadStatus(max, c, false, s)
    case _ => None
  }

  /** Reads the replies to a list of commands; what is left over is returned. */
  function ReadReplies(max: int, commands: seq<Command>, s: string): Option<(seq<Reply>, string)> {
    if commands == [] then Some(([], s))
    else
      match ReadReply(max, commands[0], s)
      case None => None
      case Some((reply, rest)) =>
        match ReadReplies(max, commands[1..], rest)
        case None => None
        case Some((replies, r)) => Some(([reply] + replies, r))
  }

  // ----- What the server means -----

  /** A response the client can read to its end. */
  predicate Complete(e: Effect) {
    e.response.Status? || e.response.Listing? || e.response.Message?
  }

  function Meant(e: Effect): Reply
    requires Complete(e)
  {
    match e.response
    case Status(ok, n) => Reply(e.prompted, StatusLine(ok, MessageOf(n)), [])
    case Listing(n, lines) => Reply(e.prompted, StatusLine(true, MessageOf(n)), lines)
    case Message(n, body) => Reply(e.prompted, StatusLine(true, MessageOf(n)), StuffAll(LinesOf(body)))
  }

  /** A line that can stand in a list of lines. */
  predicate Safe(line: string) {
    '\n' !in line && line != "."
  }

  predicate AllSafe(lines: seq<string>) {
    forall i :: 0 <= i < |lines| ==> Safe(lines[i])
  }

  /** A token that keeps the lines built from it safe. */
  predicate SafeToken(t: string) {
    '\n' !in t && (t == "" || t[0] != '.')
  }

  /** Configured capabilities and SASL mechanism names are written as they are, so they must
      be well-formed: no LF, and no dot at the start. */
  predicate WellFormed(cfg: Config, env: Env) {
    && SafeCaps(cfg.caps)
    && (env.session.mechanisms.Some? ==>
          forall i :: 0 <= i < |env.session.mechanisms.value| ==> SafeToken(env.session.mechanisms.value[i]))
  }

  /** The shape of a response fits what the client expects after the command. */
  predicate Fits(c: Command, e: Effect) {
    && (e.prompted ==> c.verb == AUTH && c.args != [] && (e.response.Status? || e.response.NoResponse?))
    && (e.response.Status? && e.response.ok ==> !ExpectsLines(c))
    && (e.response.Listing? ==>
          ExpectsLines(c) && AllSafe(e.response.lines))
    && (e.response.Message? || e.response.Broken? ==> ExpectsLines(c))
  }

  // ----- Every command's response fits -----

  lemma {:induction false} JoinOneLine(ts: seq<string>)
    requires forall t :: t in ts ==> '\n' !in t
    ensures '\n' !in Join(ts)
  {
    if |ts| > 1 {
      JoinOneLine(ts[1..]);
    }
  }

  lemma CapLineSafe(cfg: Config, name: string, params: seq<string>)
    requires SafeToken(name) && forall p :: p in params ==> '\n' !in p
    ensures AllSafe(CapLine(cfg, name, params))
  {
    JoinOneLine(params);
    assert (name + " " + Join(params))[|name|] == ' ';
  }

  predicate SafeCaps(caps: seq<Capability>) {
    forall i :: 0 <= i < |caps| ==> SafeToken(caps[i].name) && forall p :: p in caps[i].params ==> '\n' !in p
  }

  lemma {:induction false} CapLinesSafe(cfg: Config, caps: seq<Capability>)
    requires SafeCaps(caps)
    ensures AllSafe(CapLines(cfg, caps))
  {
    hide CapLine;
    if caps != [] {
      CapLineSafe(cfg, caps[0].name, caps[0].params);
      CapLinesSafe(cfg, caps[1..]);
    }
  }

  lemma CapIfSafe(b: bool, name: string, params: seq<string>)
    requires SafeToken(name) && forall p :: p in params ==> '\n' !in p
    ensures SafeCaps(CapIf(b, name, params))
  {
  }

  lemma BasicSafe(auth: bool)
    ensures SafeCaps(Basic(auth))
  {
    hide CapIf;
    CapIfSafe(true, "TOP", []);
    CapIfSafe(true, "UIDL", []);
    CapIfSafe(auth, "USER", []);
    CapIfSafe(true, "RESP-CODES", []);
    CapIfSafe(true, "PIPELINING", []);
  }

  lemma ExtensionsSafe(auth: bool, stls: bool, s: Session)
    requires s.mechanisms.Some? ==> forall i :: 0 <= i < |s.mechanisms.value| ==> SafeToken(s.mechanisms.value[i])
    ensures SafeCaps(Extensions(auth, stls, s))
  {
    hide CapIf;
    var mechanisms := if s.mechanisms.Some? then s.mechanisms.value else [];
    CapIfSafe(stls, "STLS", []);
    CapIfSafe(auth && mechanisms != [], "SASL", mechanisms);
    CapIfSafe(s.lang.Some?, "LANG", []);
    CapIfSafe(s.utf8.Some?, "UTF8", []);
  }

  lemma AdvertisedSafe(cfg: Config, st: ConnState, env: Env)
    requires WellFormed(cfg, env)
    ensures AllSafe(CapLines(cfg, Advertised(cfg, st, env.session)))
  {
    hide Basic, Extensions, CapLines;
    BasicSafe(AuthAllowed(cfg, st));
    ExtensionsSafe(AuthAllowed(cfg, st), cfg.tlsAvailable && !st.isTLS, env.session);
    CapLinesSafe(cfg, Advertised(cfg, st, env.session));
  }

  lemma NumbersOneLine(n: int)
    ensures '\n' !in DecInt(n) && DecInt(n) != "" && DecInt(n)[0] != '.'
  {
  }

  lemma ListLinesSafe(items: seq<Info>)
    ensures AllSafe(ListLines(items))
  {
    forall i | 0 <= i < |items|
      ensures Safe(ListLine(items[i]))
    {
      NumbersOneLine(items[i].num);
      NumbersOneLine(items[i].size);
    }
  }

  lemma UidlLinesSafe(items: seq<Uid>)
    ensures AllSafe(UidlLines(items))
  {
    forall i | 0 <= i < |items|
      ensures Safe(UidlLine(items[i]))
    {
      NumbersOneLine(items[i].num);
    }
  }

  lemma LangLinesSafe(langs: seq<Language>)
    ensures AllSafe(LangLines(langs))
  {
    forall i | 0 <= i < |langs|
      ensures Safe(LangLine(langs[i]))
    {
      var l := langs[i];
      assert LangLine(l)[|Sanitize(l.tag)|] == ' ';
    }
  }

  lemma ErrorFits(cfg: Config, st: ConnState, c: Command, n: Notice)
    ensures Fits(c, ClientError(cfg, st, n))
  {
  }

  lemma FinishAuthFits(cfg: Config, st: ConnState, c: Command, env: Env, encoded: string)
    requires c.verb == AUTH && c.args != []
    ensures Fits(c, FinishAuth(cfg, st, encoded, env))
    ensures Fits(c, FinishAuth(cfg, st, encoded, env).(prompted := true))
  {
    if encoded != "*" {
      DecodedFits(cfg, st, c, Sasl.DecodePlain(encoded), env);
    }
  }

  lemma DecodedFits(cfg: Config, st: ConnState, c: Command, d: Option<Sasl.Credentials>, env: Env)
    requires c.verb == AUTH && c.args != []
    ensures Fits(c, Decoded(cfg, st, d, env))
    ensures Decoded(cfg, st, d, env).response.Status? || Decoded(cfg, st, d, env).response.NoResponse?
  {
  }

  lemma HandleAuthFits(cfg: Config, st: ConnState, c: Command, env: Env)
    requires c.verb == AUTH && WellFormed(cfg, env)
    ensures Fits(c, HandleAuth(cfg, st, c.args, env))
  {
    ErrorFits(cfg, st, c, TlsFirst);
    ErrorFits(cfg, st, c, NoSasl);
    ErrorFits(cfg, st, c, BadMechanism);
    if |c.args| > 1 {
      FinishAuthFits(cfg, st, c, env, c.args[1]);
    }
    if |c.args| > 0 && env.continuation.Some? {
      FinishAuthFits(cfg, st, c, env, TrimSpace(env.continuation.value));
    }
  }

  lemma HandleListFits(cfg: Config, st: ConnState, c: Command, env: Env)
    ensures c.verb == LIST ==> Fits(c, HandleList(cfg, st, c.args, env))
  {
    match ParseOptionalMsgNum(c.args)
    case Bad(n) => ErrorFits(cfg, st, c, n);
    case Good(num) =>
      if env.session.list(num).Ok? {
        ListLinesSafe(env.session.list(num).value);
      }
  }

  lemma HandleUidlFits(cfg: Config, st: ConnState, c: Command, env: Env)
    ensures c.verb == UIDL ==> Fits(c, HandleUidl(cfg, st, c.args, env))
  {
    match ParseOptionalMsgNum(c.args)
    case Bad(n) => ErrorFits(cfg, st, c, n);
    case Good(num) =>
      if env.session.uidl(num).Ok? {
        UidlLinesSafe(env.session.uidl(num).value);
      }
  }

  lemma HandleRetrFits(cfg: Config, st: ConnState, c: Command, env: Env)
    ensures c.verb == RETR ==> Fits(c, HandleRetr(cfg, st, c.args, env))
    ensures c.verb == DELE ==> Fits(c, HandleDele(cfg, st, c.args, env))
  {
    match ParseMsgNum(c.args)
    case Bad(n) => ErrorFits(cfg, st, c, n);
    case Good(num) =>
  }

  lemma HandleTopFits(cfg: Config, st: ConnState, c: Command, env: Env)
    ensures c.verb == TOP ==> Fits(c, HandleTop(cfg, st, c.args, env))
  {
    ErrorFits(cfg, st, c, TopSyntax);
    ErrorFits(cfg, st, c, BadLines);
    if |c.args| >= 2 {
      match ParseMsgNum(c.args[..1])
      case Bad(n) => ErrorFits(cfg, st, c, n);
      case Good(num) =>
    }
  }

  lemma HandleLangFits(cfg: Config, st: ConnState, c: Command, env: Env)
    ensures c.verb == LANG ==> Fits(c, HandleLang(cfg, st, c.args, env))
  {
    match env.session.lang
    case None => ErrorFits(cfg, st, c, NoLang);
    case Some(lang) =>
      if lang.list.Ok? {
        LangLinesSafe(lang.list.value);
      }
  }

  lemma HandleCapaFits(cfg: Config, st: ConnState, c: Command, env: Env)
    requires c.verb == CAPA && WellFormed(cfg, env)
    ensures Fits(c, HandleCapa(cfg, st, env))
  {
    AdvertisedSafe(cfg, st, env);
  }

  lemma HandlePassFits(cfg: Config, st: ConnState, c: Command, env: Env)
    ensures c.verb == USER ==> Fits(c, HandleUser(cfg, st, c.args))
    ensures c.verb == PASS ==> Fits(c, HandlePass(cfg, st, c.raw, env))
    ensures c.verb == STLS ==> Fits(c, HandleSTLS(cfg, st, env))
    ensures c.verb == UTF8 ==> Fits(c, HandleUTF8(cfg, st, env))
  {
    hide AllSafe;
  }

  lemma HandleSimpleFits(cfg: Config, st: ConnState, c: Command, env: Env)
    ensures c.verb == STAT ==> Fits(c, HandleStat(cfg, st, env))
    ensures c.verb == RSET ==> Fits(c, HandleRset(cfg, st, env))
    ensures c.verb == NOOP ==> Fits(c, HandleNoop(cfg, st, env))
    ensures c.verb == QUIT ==> Fits(c, HandleQuit(cfg, st, env))
  {
  }

  lemma DispatchAuthFits(cfg: Config, st: ConnState, c: Command, env: Env)
    requires WellFormed(cfg, env)
    ensures Fits(c, DispatchAuth(cfg, st, c, env))
  {
    match c.verb
    case CAPA => HandleCapaFits(cfg, st, c, env);
    case AUTH => HandleAuthFits(cfg, st, c, env);
    case LANG => HandleLangFits(cfg, st, c, env);
    case Other(name) => ErrorFits(cfg, st, c, UnknownCommand(name));
    case USER => HandlePassFits(cfg, st, c, env);
    case PASS => HandlePassFits(cfg, st, c, env);
    case STLS => HandlePassFits(cfg, st, c, env);
    case QUIT =>
    case UTF8 => HandlePassFits(cfg, st, c, env);
    case LAST =>
    case _ => ErrorFits(cfg, st, c, NotAuthenticated);
  }

  lemma DispatchTransactionFits(cfg: Config, st: ConnState, c: Command, env: Env)
    requires WellFormed(cfg, env)
    ensures Fits(c, DispatchTransaction(cfg, st, c, env))
  {
    match c.verb
    case CAPA => HandleCapaFits(cfg, st, c, env);
    case LIST => HandleListFits(cfg, st, c, env);
    case UIDL => HandleUidlFits(cfg, st, c, env);
    case RETR => HandleRetrFits(cfg, st, c, env);
    case DELE => HandleRetrFits(cfg, st, c, env);
    case TOP => HandleTopFits(cfg, st, c, env);
    case LANG => HandleLangFits(cfg, st, c, env);
    case STAT => HandleSimpleFits(cfg, st, c, env);
    case RSET => HandleSimpleFits(cfg, st, c, env);
    case NOOP => HandleSimpleFits(cfg, st, c, env);
    case QUIT => HandleSimpleFits(cfg, st, c, env);
    case UTF8 => HandlePassFits(cfg, st, c, env);
    case LAST =>
    case _ => ErrorFits(cfg, st, c, UnknownCommand(NameOf(c.verb)));
  }

  lemma DispatchFits(cfg: Config, st: ConnState, c: Command, env: Env)
    requires WellFormed(cfg, env)
    ensures Fits(c, Dispatch(cfg, st, c, env))
  {
    if st.authenticated {
      DispatchTransactionFits(cfg, st, c, env);
    } else {
      DispatchAuthFits(cfg, st, c, env);
    }
  }

  // ----- Reading one reply back -----

  lemma {:induction false} SanitizedLine(ok: bool, msg: string)
    ensures '\n' !in StatusLine(ok, msg)
    ensures ok ==> "+OK" <= StatusLine(ok, msg)
    ensures !ok ==> !("+OK" <= StatusLine(ok, msg))
    ensures StatusLine(ok, msg) != "+ "
  {
    if !ok {
      assert StatusLine(ok, msg)[0] == '-';
    }
  }

  /** Every line of the response, its terminator and the prompt included, is within the limit. */
  predicate Short(max: int, e: Effect) {
    && max >= 1 && (e.prompted ==> max >= 2)
    && match e.response
       case NoResponse => true
       case Status(ok, n) => |StatusLine(ok, MessageOf(n))| <= max
       case Listing(n, lines) =>
         |StatusLine(true, MessageOf(n))| <= max && forall i :: 0 <= i < |lines| ==> |lines[i]| <= max
       case Message(n, body) =>
         |StatusLine(true, MessageOf(n))| <= max && forall l :: l in LinesOf(body) ==> |StuffLine(l)| <= max
       case Broken(n, partial) => |StatusLine(true, MessageOf(n))| <= max
  }

  /** After the prompt, if any: the response and nothing more is read. */
  lemma ReadStatusBack(max: int, c: Command, e: Effect, rest: string)
    requires Complete(e) && Fits(c, e)
    requires Short(max, e)
    ensures ReadStatus(max, c, e.prompted, Render(e.response) + rest) == Some((Meant(e), rest))
  {
    hide MessageOf, StatusLine, Stuffed;
    match e.response
    case Status(ok, n) =>
      var line := StatusLine(ok, MessageOf(n));
      SanitizedLine(ok, MessageOf(n));
      NextLineBack(max, line, rest);
    case Listing(n, lines) =>
      var line := StatusLine(true, MessageOf(n));
      var r := Block(lines) + "." + CRLF + rest;
      SanitizedLine(true, MessageOf(n));
      assert Render(e.response) + rest == line + CRLF + r;
      NextLineBack(max, line, r);
      ReadUntilDotBlock(max, lines, rest);
    case Message(n, body) =>
      var line := StatusLine(true, MessageOf(n));
      SanitizedLine(true, MessageOf(n));
      assert Render(e.response) + rest == line + CRLF + (Stuffed(body) + rest);
      NextLineBack(max, line, Stuffed(body) + rest);
      RoundTrip(max, body, rest);
  }

  /** Self-delimitation of one whole reply, whatever bytes follow. */
  lemma ReadReplyBack(max: int, c: Command, e: Effect, rest: string)
    requires Complete(e) && Fits(c, e)
    requires Short(max, e)
    ensures ReadReply(max, c, RenderEffect(e) + rest) == Some((Meant(e), rest))
  {
    hide MessageOf, Render, Meant, ReadStatus;
    var s := Render(e.response) + rest;
    ReadStatusBack(max, c, e, rest);
    if e.prompted {
      assert RenderEffect(e) + rest == "+ " + CRLF + s;
      NextLineBack(max, "+ ", s);
    } else {
      assert RenderEffect(e) + rest == s;
      FirstLine(max, e, rest);
    }
  }

  lemma FirstLine(max: int, e: Effect, rest: string)
    requires Complete(e) && Short(max, e)
    ensures NextLine(max, Render(e.response) + rest).Line? && NextLine(max, Render(e.response) + rest).text != "+ "
  {
    hide MessageOf, Stuffed, StatusLine;
    var r := e.response;
    var ok := r.Status? ==> r.ok;
    var n := r.notice;
    var line := StatusLine(ok, MessageOf(n));
    SanitizedLine(ok, MessageOf(n));
    var more := (match r
                 case Listing(_, lines) => Block(lines) + "." + CRLF
                 case Message(_, body) => Stuffed(body)
                 case _ => "") + rest;
    assert Render(r) + rest == line + CRLF + more;
    NextLineBack(max, line, more);
  }

  // ----- Over a run -----

  function Written(entries: seq<Entry>): string {
    if entries == [] then "" else RenderEffect(entries[0].effect) + Written(entries[1..])
  }

  function Commands(entries: seq<Entry>): (cs: seq<Command>)
    ensures |cs| == |entries|
  {
    if entries == [] then [] else [ParseCommand(entries[0].line)] + Commands(entries[1..])
  }

  /** Entries whose responses the client can read to their end. */
  predicate AllComplete(entries: seq<Entry>) {
    forall i :: 0 <= i < |entries| ==> Complete(entries[i].effect)
  }

  function AllMeant(entries: seq<Entry>): seq<Reply>
    requires AllComplete(entries)
  {
    if entries == [] then [] else [Meant(entries[0].effect)] + AllMeant(entries[1..])
  }

  predicate AllFit(entries: seq<Entry>) {
    forall i :: 0 <= i < |entries| ==> Fits(ParseCommand(entries[i].line), entries[i].effect)
  }

  predicate AllShort(max: int, entries: seq<Entry>) {
    forall i :: 0 <= i < |entries| ==> Short(max, entries[i].effect)
  }

  lemma {:induction false} ReadRepliesBack(max: int, entries: seq<Entry>, rest: string)
    requires AllComplete(entries) && AllFit(entries)
    requires AllShort(max, entries)
    ensures ReadReplies(max, Commands(entries), Written(entries) + rest) == Some((AllMeant(entries), rest))
  {
    hide RenderEffect, ReadReply, Fits, Meant, Short;
    if entries == [] {
      assert Written(entries) + rest == rest;
    } else {
      var e, more := entries[0].effect, Written(entries[1..]) + rest;
      assert Written(entries) + rest == RenderEffect(e) + more;
      ReadReplyBack(max, ParseCommand(entries[0].line), e, more);
      ReadRepliesBack(max, entries[1..], rest);
      assert Commands(entries)[1..] == Commands(entries[1..]);
    }
  }

  lemma {:induction false} WrittenSnoc(entries: seq<Entry>, e: Entry)
    ensures Written(entries + [e]) == Written(entries) + RenderEffect(e.effect)
  {
    hide RenderEffect;
    if entries == [] {
      assert [e][1..] == [];
    } else {
      WrittenSnoc(entries[1..], e);
      assert (entries + [e])[1..] == entries[1..] + [e];
    }
  }

  /** What every run's output looks like: the greeting, the effects of the commands in order,
      and at most one closing response. */
  predicate OutFramed(cfg: Config, r: Run) {
    && r.out == Render(Status(true, Greeting(cfg.greeting))) + Written(r.entries) + Render(r.farewell)
    && (r.farewell == NoResponse || (r.farewell.Status? && !r.farewell.ok && !r.live))
  }

  /** Only the last command can be left without a complete response, and then the connection
      has ended and nothing follows. */
  predicate EntriesFramed(r: Run) {
    && AllFit(r.entries)
    && (forall i :: 0 <= i < |r.entries| && !Complete(r.entries[i].effect) ==>
          i == |r.entries| - 1 && !r.live && r.farewell == NoResponse)
  }

  predicate Framed(cfg: Config, r: Run) {
    OutFramed(cfg, r) && EntriesFramed(r)
  }

  /** A response is incomplete only when the command ends the connection. */
  predicate EndsIncomplete(e: Effect) {
    !Complete(e) ==> WantsToEnd(e)
  }

  lemma FinishAuthEnds(cfg: Config, st: ConnState, d: Option<Sasl.Credentials>, env: Env)
    ensures EndsIncomplete(Decoded(cfg, st, d, env))
  {
  }

  lemma DispatchEnds(cfg: Config, st: ConnState, c: Command, env: Env)
    ensures EndsIncomplete(Dispatch(cfg, st, c, env))
  {
    hide Sasl.DecodePlain, ParseNumber, Advertised, CapLines, ListLines, UidlLines, LangLines, DotStuffWriters.Concat;
    if c.verb == AUTH {
      if |c.args| > 1 {
        FinishAuthEnds(cfg, st, Sasl.DecodePlain(c.args[1]), env);
      }
      if env.continuation.Some? {
        FinishAuthEnds(cfg, st, Sasl.DecodePlain(TrimSpace(env.continuation.value)), env);
      }
    }
  }

  lemma GreetingLine(text: string)
    ensures Render(Status(true, Greeting(text))) == StatusLine(true, text) + CRLF
  {
  }

  lemma Regroup(g: string, w: string, x: string, y: string)
    ensures (g + w + "") + x + y == g + (w + x) + y
  {
  }

  lemma AdvanceOut(cfg: Config, r: Run, line: string, env: Env, e: Effect)
    requires OutFramed(cfg, r) && r.live
    ensures OutFramed(cfg, Advance(cfg, r, line, env, e))
  {
    hide MessageOf, Render, RenderEffect, MaxErrorsExceeded;
    RenderNothing();
    WrittenSnoc(r.entries, Entry(line, r.st, env, e));
    Regroup(Render(Status(true, Greeting(cfg.greeting))), Written(r.entries), RenderEffect(e), Render(Closing(cfg, e)));
  }

  lemma AdvanceEntries(cfg: Config, r: Run, line: string, env: Env, e: Effect)
    requires EntriesFramed(r) && r.live && Fits(ParseCommand(line), e) && EndsIncomplete(e)
    ensures EntriesFramed(Advance(cfg, r, line, env, e))
  {
    hide Render, RenderEffect, Fits, ParseCommand;
    var all := r.entries + [Entry(line, r.st, env, e)];
    assert forall i :: 0 <= i < |r.entries| ==> all[i] == r.entries[i];
  }

  lemma AbandonFramed(cfg: Config, r: Run, f: Failure)
    requires Framed(cfg, r) && r.live
    ensures Framed(cfg, Abandon(r, f))
  {
    hide MessageOf, Render, RenderEffect, Fits, Written, Complete;
    RenderNothing();
    Regroup(Render(Status(true, Greeting(cfg.greeting))), Written(r.entries), "", Render(Courtesy(f)));
    assert EntriesFramed(Abandon(r, f));
  }

  lemma StepFramed(cfg: Config, r: Run, event: Event)
    requires Framed(cfg, r) && WellFormed(cfg, event.env)
    ensures Framed(cfg, Step(cfg, r, event))
  {
    hide OutFramed, EntriesFramed, WellFormed, Advance, Abandon, Dispatch, ParseCommand, Fits, EndsIncomplete;
    if r.live {
      match event.input
      case ReadFailed(f) => AbandonFramed(cfg, r, f);
      case Received(raw) =>
        var line := TrimSpace(raw);
        if line != "" {
          var c := ParseCommand(line);
          DispatchFits(cfg, r.st, c, event.env);
          DispatchEnds(cfg, r.st, c, event.env);
          AdvanceOut(cfg, r, line, event.env, Dispatch(cfg, r.st, c, event.env));
          AdvanceEntries(cfg, r, line, event.env, Dispatch(cfg, r.st, c, event.env));
        }
    }
  }

  lemma {:induction false} ExecFramed(cfg: Config, r: Run, events: seq<Event>)
    requires Framed(cfg, r)
    requires forall i :: 0 <= i < |events| ==> WellFormed(cfg, events[i].env)
    ensures Framed(cfg, Exec(cfg, r, events))
    decreases |events|
  {
    hide Framed, Step, WellFormed;
    if events != [] {
      StepFramed(cfg, r, events[0]);
      ExecFramed(cfg, Step(cfg, r, events[0]), events[1..]);
    }
  }

  /** How many commands have a complete reply: all but possibly the last. */
  function Answered(entries: seq<Entry>): (n: nat)
    ensures n <= |entries| <= n + 1
  {
    if entries != [] && !Complete(entries[|entries| - 1].effect) then |entries| - 1 else |entries|
  }

  /** What is left after the replies: nothing or the closing line, or the last command's
      incomplete response. */
  function LeftOver(r: Run): string {
    var n := Answered(r.entries);
    if n < |r.entries| then RenderEffect(r.entries[n].effect) else Render(r.farewell)
  }

  /** One response per command, in order. Over every run the client reads back the greeting
      and then, for the commands in their order, exactly the replies the server meant; what is
      left is a closing "-ERR" line or nothing, or, when the last command's response is
      incomplete (a hijack, a broken body, a continuation that never came), that response. */
  lemma OneResponsePerCommand(cfg: Config, isTLS: bool, flushed: bool, events: seq<Event>, max: int)
    requires forall i :: 0 <= i < |events| ==> WellFormed(cfg, events[i].env)
    requires |StatusLine(true, cfg.greeting)| <= max
    requires var r := Exec(cfg, Start(cfg, isTLS, flushed), events); AllShort(max, r.entries[..Answered(r.entries)])
    ensures var r := Exec(cfg, Start(cfg, isTLS, flushed), events);
            var n := Answered(r.entries);
            && AllComplete(r.entries[..n])
            && NextLine(max, r.out).Line?
            && NextLine(max, r.out).text == StatusLine(true, cfg.greeting)
            && ReadReplies(max, Commands(r.entries[..n]), NextLine(max, r.out).rest)
               == Some((AllMeant(r.entries[..n]), LeftOver(r)))
            && (n < |r.entries| ==> !r.live)
            && (r.farewell == NoResponse || (r.farewell.Status? && !r.farewell.ok && !r.live))
  {
    hide Step, MessageOf, Render, RenderEffect, WellFormed, EntriesFramed, LeftOver, StatusLine, AllShort;
    var s := Start(cfg, isTLS, flushed);
    StartFramed(cfg, isTLS, flushed);
    ExecFramed(cfg, s, events);
    ReadRun(cfg, Exec(cfg, s, events), max);
  }

  lemma StartFramed(cfg: Config, isTLS: bool, flushed: bool)
    ensures Framed(cfg, Start(cfg, isTLS, flushed))
  {
    hide MessageOf;
    assert Render(Status(true, Greeting(cfg.greeting))) + "" + "" == Render(Status(true, Greeting(cfg.greeting)));
  }

  lemma SplitWritten(r: Run)
    ensures Written(r.entries) + (if Answered(r.entries) < |r.entries| then "" else Render(r.farewell))
            == Written(r.entries[..Answered(r.entries)]) + LeftOver(r)
  {
    hide MessageOf, Render, RenderEffect;
    var n := Answered(r.entries);
    if n < |r.entries| {
      WrittenSnoc(r.entries[..n], r.entries[n]);
      assert r.entries == r.entries[..n] + [r.entries[n]];
      assert Written(r.entries) + "" == Written(r.entries);
    } else {
      assert r.entries[..n] == r.entries;
    }
  }

  lemma AnsweredComplete(r: Run)
    requires EntriesFramed(r)
    ensures var n := Answered(r.entries);
            && AllComplete(r.entries[..n]) && AllFit(r.entries[..n])
            && (n < |r.entries| ==> !r.live && r.farewell == NoResponse)
  {
    hide Fits;
  }

  lemma ReadGreeting(cfg: Config, r: Run, max: int)
    requires OutFramed(cfg, r) && |StatusLine(true, cfg.greeting)| <= max
    ensures NextLine(max, r.out) == Line(StatusLine(true, cfg.greeting), Written(r.entries) + Render(r.farewell))
  {
    hide MessageOf, Render, StatusLine, Written;
    GreetingLine(cfg.greeting);
    SanitizedLine(true, cfg.greeting);
    var greeting, rest := StatusLine(true, cfg.greeting), Written(r.entries) + Render(r.farewell);
    assert r.out == greeting + CRLF + rest;
    NextLineBack(max, greeting, rest);
  }

  lemma ReadRun(cfg: Config, r: Run, max: int)
    requires Framed(cfg, r) && |StatusLine(true, cfg.greeting)| <= max
    requires AllShort(max, r.entries[..Answered(r.entries)])
    ensures var n := Answered(r.entries);
            && AllComplete(r.entries[..n])
            && NextLine(max, r.out) == Line(StatusLine(true, cfg.greeting), Written(r.entries) + Render(r.farewell))
            && ReadReplies(max, Commands(r.entries[..n]), Written(r.entries) + Render(r.farewell))
               == Some((AllMeant(r.entries[..n]), LeftOver(r)))
            && (n < |r.entries| ==> !r.live)
  {
    hide MessageOf, Render, RenderEffect, AllFit, AllComplete, AllShort, StatusLine, LeftOver, Written, ReadReplies,
         Commands;
    RenderNothing();
    var n := Answered(r.entries);
    AnsweredComplete(r);
    ReadGreeting(cfg, r, max);
    SplitWritten(r);
    ReadRepliesBack(max, r.entries[..n], LeftOver(r));
  }
}
