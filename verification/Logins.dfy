/** Logging in over the wire: from the bytes the client's login calls write to the session's login
    call, and back from the bytes sent in answer to what the client's calls return. */
module Logins {
  import opened Lines
  import opened Text
  import opened Sessions
  import opened Protocol
  import opened LineReader
  import opened ClientReplies
  import opened Wire
  import opened Delivery
  import opened Client
  import ClientSide
  import Base64
  import Sasl

  /** What is answered to a login call. */
  function AnswerTo(cfg: Config, reply: AuthReply): Response {
    match reply
    case Accepted => Status(true, LoggedIn)
    case Hijacked => NoResponse
    case Rejected(e) => Status(false, OfSession(e, cfg.strictSessionErrors))
  }

  /** A line that is there is taken off the stream. */
  lemma TakesLine(cfg: Config, line: string, more: string)
    requires '\n' !in line && |line| <= cfg.maxLineLength
    ensures Take(cfg, line + CRLF + more) == Took(line, more)
  {
    NextLineBack(cfg.maxLineLength, line, more);
  }

  lemma SpaceIsWhite(line: string)
    requires IsToken(line)
    ensures '\n' !in line
  {
    assert IsSpace('\n');
  }

  /** USER off the stream: accepted, remembered and confirmed. */
  lemma UserTurn(cfg: Config, b: ByteRun, username: string, more: string, ch: Chance)
    requires Waiting(cfg, b.run) && IsToken(username) && !ContainsCTL(username) && ch.flushed
    requires |UserLine(username)| <= cfg.maxLineLength && Stream(b) == UserLine(username) + CRLF + more
    ensures var b' := Turn(cfg, b, ch);
            && Waiting(cfg, b'.run) && b'.run.st == b.run.st.(username := username)
            && b'.run.calls == b.run.calls && Stream(b') == more
            && b'.run.out == b.run.out + Render(Status(true, Done))
  {
    hide ParseCommand, Render, Take, MessageOf, TrimSpace, IsToken, ContainsCTL;
    SpaceIsWhite(username);
    TakesLine(cfg, UserLine(username), more);
    TurnTook(cfg, b, ch);
    UserLineParsed(username);
    assert UserLine(username)[0] == 'U';
    RenderNothing();
    assert b.run.calls + [] + [] == b.run.calls;
    assert "" + Render(Status(true, Done)) == Render(Status(true, Done));
    assert b.run.out + Render(Status(true, Done)) + "" == b.run.out + Render(Status(true, Done));
  }

  /** PASS off the stream: one login call with the remembered name, and its answer, followed by
      the closing response if it was one refusal too many. */
  lemma PassTurn(cfg: Config, b: ByteRun, password: string, more: string, ch: Chance)
    requires Waiting(cfg, b.run) && b.run.st.username != ""
    requires !IsBlank(password) && '\n' !in password
    requires |PassLine(password)| <= cfg.maxLineLength && Stream(b) == PassLine(password) + CRLF + more
    ensures var b' := Turn(cfg, b, ch);
            var name, word := b.run.st.username, TrimRight(password);
            var reply := ch.session.login(name, word);
            && |b'.run.calls| > |b.run.calls|
            && b'.run.calls[|b.run.calls|] == CallLogin(name, word, b.run.st.isTLS, reply)
            && Stream(b') == more
            && b'.run.out == b.run.out + Render(AnswerTo(cfg, reply)) + Render(b'.run.farewell)
            && (reply.Accepted? ==> b'.run.farewell == NoResponse && b'.run.st == b.run.st.(authenticated := true))
  {
    hide ParseCommand, Render, Take, MessageOf, TrimSpace, TrimRight, IsBlank;
    TakesLine(cfg, PassLine(password), more);
    TurnTook(cfg, b, ch);
    PassLineParsed(password);
    var reply := ch.session.login(b.run.st.username, TrimRight(password));
    assert "" + Render(AnswerTo(cfg, reply)) == Render(AnswerTo(cfg, reply));
  }

  lemma PlayTwo(cfg: Config, b: ByteRun, ch1: Chance, ch2: Chance)
    ensures Play(cfg, b, [ch1, ch2]) == Turn(cfg, Turn(cfg, b, ch1), ch2)
  {
    hide Turn;
    assert [ch1, ch2][1..] == [ch2] && [ch2][1..] == [];
    assert Play(cfg, Turn(cfg, b, ch1), [ch2]) == Play(cfg, Turn(cfg, Turn(cfg, b, ch1), ch2), []);
  }

  lemma PlayOne(cfg: Config, b: ByteRun, ch: Chance)
    ensures Play(cfg, b, [ch]) == Turn(cfg, b, ch)
  {
    hide Turn;
    assert Play(cfg, b, [ch]) == Play(cfg, Turn(cfg, b, ch), []);
  }

  /** The client's status-only calls read one answer and leave what follows. */
  lemma AnswerRead(lim: Limits, ok: bool, n: Notice, rest: string)
    requires |StatusLine(ok, MessageOf(n))| <= lim.line
    ensures OkReply(lim, Render(Status(ok, n)) + rest)
            == Read(if ok then Value(()) else Refused(StatusLine(ok, MessageOf(n))), rest)
  {
    hide MessageOf, StatusLine, TakeNext;
    ClientSide.ReadStatusLine(lim, ok, n, rest);
  }

  /** Logging in by USER and PASS, from the bytes: the session gets exactly the username and the
      password less trailing whitespace, both lines are answered, and what came behind them is
      still to be read. */
  lemma UserPassFromBytes(cfg: Config, b: ByteRun, username: string, password: string, more: string,
                          ch1: Chance, ch2: Chance)
    requires Waiting(cfg, b.run) && IsToken(username) && !ContainsCTL(username) && ch1.flushed
    requires !IsBlank(password) && '\n' !in password
    requires |UserLine(username)| <= cfg.maxLineLength && |PassLine(password)| <= cfg.maxLineLength
    requires Stream(b) == UserLine(username) + CRLF + (PassLine(password) + CRLF + more)
    ensures var b' := Play(cfg, b, [ch1, ch2]);
            var word := TrimRight(password);
            var reply := ch2.session.login(username, word);
            && |b'.run.calls| > |b.run.calls|
            && b'.run.calls[|b.run.calls|] == CallLogin(username, word, b.run.st.isTLS, reply)
            && Stream(b') == more
            && b'.run.out == b.run.out + (Render(Status(true, Done))
                                          + (Render(AnswerTo(cfg, reply)) + Render(b'.run.farewell)))
            && (reply.Accepted? ==> b'.run.farewell == NoResponse && b'.run.st.authenticated)
  {
    hide Turn, Render, Play, TrimRight, IsBlank, IsToken, ContainsCTL, UserLine, PassLine;
    NotEmpty(username);
    UserTurn(cfg, b, username, PassLine(password) + CRLF + more, ch1);
    PassTurn(cfg, Turn(cfg, b, ch1), password, more, ch2);
    PlayTwo(cfg, b, ch1, ch2);
  }

  lemma NotEmpty(token: string)
    requires IsToken(token)
    ensures token != ""
  {
  }

  lemma DoneShort()
    ensures |StatusLine(true, MessageOf(Done))| <= 64 && |StatusLine(true, MessageOf(LoggedIn))| <= 64
    ensures |StatusLine(false, MessageOf(BadPlain))| <= 64
  {
    hide StatusLine;
    ClientSide.OkShort();
    ClientSide.ShortStatus(true, LoggedIn);
    ClientSide.ShortStatus(false, BadPlain);
  }

  /** What the client's call returns for the session's decision. */
  function Outcome(cfg: Config, reply: AuthReply): Option<ClientReplies.Result<()>>
    requires !reply.Hijacked?
  {
    match reply
    case Accepted => Some(Value(()))
    case Rejected(e) => Some(Refused(StatusLine(false, ErrorText(e, cfg.strictSessionErrors))))
  }

  lemma SessionMessage(cfg: Config, reply: AuthReply)
    ensures reply.Rejected? ==>
              var strict := cfg.strictSessionErrors;
              MessageOf(OfSession(reply.error, strict)) == ErrorText(reply.error, strict)
  {
    hide ErrorText;
  }

  lemma OutcomeRead(cfg: Config, lim: Limits, reply: AuthReply, rest: string)
    requires !reply.Hijacked? && lim.line >= 64
    requires reply.Rejected? ==> |StatusLine(false, ErrorText(reply.error, cfg.strictSessionErrors))| <= lim.line
    ensures OkReply(lim, Render(AnswerTo(cfg, reply)) + rest) == Read(Outcome(cfg, reply).value, rest)
  {
    hide Render, OkReply, StatusLine, ErrorText;
    DoneShort();
    SessionMessage(cfg, reply);
    hide MessageOf;
    match reply
    case Accepted => AnswerRead(lim, true, LoggedIn, rest);
    case Rejected(e) => AnswerRead(lim, false, OfSession(e, cfg.strictSessionErrors), rest);
  }

  /** AUTH PLAIN off the stream: deliverable credentials reach the session unchanged and are
      answered; others are a client error. */
  lemma PlainFromBytes(cfg: Config, b: ByteRun, c: Sasl.Credentials, more: string, ch: Chance)
    requires Waiting(cfg, b.run) && Base64.IsBytes(Sasl.Payload(c))
    requires ch.session.mechanisms.Some? && Contains(ch.session.mechanisms.value, "PLAIN")
    requires |PlainLine(c)| <= cfg.maxLineLength && Stream(b) == PlainLine(c) + CRLF + more
    ensures var b' := Play(cfg, b, [ch]);
            var reply := ch.session.plain(c.identity, c.username, c.password);
            && Stream(b') == more
            && (Sasl.Deliverable(c) ==>
                  && |b'.run.calls| > |b.run.calls|
                  && b'.run.calls[|b.run.calls|]
                     == CallPlain(c.identity, c.username, c.password, b.run.st.isTLS, reply)
                  && b'.run.out == b.run.out + (Render(AnswerTo(cfg, reply)) + Render(b'.run.farewell))
                  && (reply.Accepted? ==> b'.run.farewell == NoResponse && b'.run.st.authenticated))
            && (!Sasl.Deliverable(c) ==>
                  b'.run.out == b.run.out + (Render(Status(false, BadPlain)) + Render(b'.run.farewell))
                  && b'.run.calls in {b.run.calls, b.run.calls + [CallClose]})
  {
    hide Dispatch, ParseCommand, Render, Take, MessageOf, TrimSpace, Base64.Encode, PlainLine, Sasl.Deliverable,
         Sasl.DecodePlain, Contains, Advance, Play;
    EncodedLine(c);
    TakesLine(cfg, PlainLine(c), more);
    TurnTook(cfg, b, ch);
    PlayOne(cfg, b, ch);
    PlainLineParsed(c);
    var env := EnvAt(cfg, ch, more);
    var e := Dispatch(cfg, b.run.st, ParseCommand(PlainLine(c)), env);
    PlainEffect(cfg, b.run.st, c, env);
    StatusTurn(cfg, b.run, PlainLine(c), env, e);
  }

  /** A turn answered by a status line, or by nothing. */
  lemma StatusTurn(cfg: Config, r: Run, line: string, env: Env, e: Effect)
    requires !e.prompted && Waiting(cfg, r)
    ensures var r' := Advance(cfg, r, line, env, e);
            && r'.st == e.next
            && r'.out == r.out + (Render(e.response) + Render(r'.farewell))
            && (e.calls == [] ==> r'.calls in {r.calls, r.calls + [CallClose]})
            && (|e.calls| == 1 ==> |r'.calls| > |r.calls| && r'.calls[|r.calls|] == e.calls[0])
            && (e.next.errorCount == r.st.errorCount ==> r'.farewell == NoResponse)
  {
    hide Render;
    assert "" + Render(e.response) == Render(e.response);
    assert r.calls + [] + [] == r.calls && r.calls + [] + [CallClose] == r.calls + [CallClose];
  }

  lemma EncodedLine(c: Sasl.Credentials)
    requires Base64.IsBytes(Sasl.Payload(c))
    ensures '\n' !in PlainLine(c) && PlainLine(c) != ""
  {
    Base64.EncodedChars(Sasl.Payload(c));
    assert IsSpace('\n');
  }

  lemma PlainEffect(cfg: Config, st: ConnState, c: Sasl.Credentials, env: Env)
    requires !st.authenticated && AuthAllowed(cfg, st) && !st.hijacked && !st.closePending
    requires env.session.mechanisms.Some? && Contains(env.session.mechanisms.value, "PLAIN")
    requires Base64.IsBytes(Sasl.Payload(c))
    ensures var e := Dispatch(cfg, st, ParseCommand(PlainLine(c)), env);
            var reply := env.session.plain(c.identity, c.username, c.password);
            && !e.prompted && e.next.isTLS == st.isTLS
            && (if Sasl.Deliverable(c) then
                  e.calls == [CallPlain(c.identity, c.username, c.password, st.isTLS, reply)]
                  && e.response == AnswerTo(cfg, reply)
                  && (reply.Accepted? ==> e.next == st.(authenticated := true) && !e.quit)
                else e == ClientError(cfg, st, BadPlain))
  {
    hide ParseCommand, Base64.Encode, Sasl.DecodePlain, Sasl.Deliverable, Contains, PlainLine;
    PlainLineParsed(c);
    UpperAlready("PLAIN");
    EncodedIsToken(Sasl.Payload(c));
    Sasl.PlainRoundTrip(c);
  }

  /** The client object logging in by USER and PASS against that connection: the session has been
      asked for exactly these credentials, and the call returns what it decided. */
  method LogIn(c: Client, username: string, password: string, ghost cfg: Config, ghost b: ByteRun,
               ghost ch1: Chance, ghost ch2: Chance, ghost more: string, ghost rest: string)
    returns (r: Option<ClientReplies.Result<()>>)
    requires c.reader.size >= 16 && c.maxLine >= 64 && c.written == ""
    requires Waiting(cfg, b.run) && IsToken(username) && !ContainsCTL(username) && ch1.flushed
    requires !IsBlank(password) && '\n' !in password
    requires |UserLine(username)| <= cfg.maxLineLength && |PassLine(password)| <= cfg.maxLineLength
    requires Stream(b) == UserLine(username) + CRLF + (PassLine(password) + CRLF + more)
    requires b.run.out + c.Unseen() == Play(cfg, b, [ch1, ch2]).run.out + rest
    requires var reply := ch2.session.login(username, TrimRight(password));
             !reply.Hijacked?
             && (reply.Rejected? ==> |StatusLine(false, ErrorText(reply.error, cfg.strictSessionErrors))| <= c.maxLine)
    modifies c`written, c.reader
    ensures c.written + more == Stream(b)
    ensures r == Outcome(cfg, ch2.session.login(username, TrimRight(password)))
    ensures c.Unseen() == Render(Play(cfg, b, [ch1, ch2]).run.farewell) + rest
  {
    hide Play, Render, OkReply, TrimRight, IsBlank, IsToken, ContainsCTL, UserLine, PassLine, StatusLine, ErrorText,
         Outcome, Waiting;
    ghost var reply := ch2.session.login(username, TrimRight(password));
    ghost var tail := Render(Play(cfg, b, [ch1, ch2]).run.farewell) + rest;
    UserPassFromBytes(cfg, b, username, password, more, ch1, ch2);
    Regrouped(b.run.out, Render(Status(true, Done)), Render(AnswerTo(cfg, reply)),
              Render(Play(cfg, b, [ch1, ch2]).run.farewell), rest, c.Unseen());
    DoneShort();
    AnswerRead(c.Bounds(), true, Done, Render(AnswerTo(cfg, reply)) + tail);
    OutcomeRead(cfg, c.Bounds(), reply, tail);
    OutcomeSome(cfg, reply);
    r := c.User(username, password);
    assert c.written + more == Stream(b);
  }

  lemma OutcomeSome(cfg: Config, reply: AuthReply)
    requires !reply.Hijacked?
    ensures Outcome(cfg, reply).Some?
  {
  }

  lemma Regrouped(out: string, x: string, y: string, z: string, rest: string, unseen: string)
    requires out + unseen == out + (x + (y + z)) + rest
    ensures unseen == x + (y + (z + rest))
  {
    assert (out + unseen)[|out|..] == unseen;
    assert (out + (x + (y + z)) + rest)[|out|..] == x + (y + (z + rest));
  }

  lemma RegroupedOne(out: string, y: string, z: string, rest: string, unseen: string)
    requires out + unseen == out + (y + z) + rest
    ensures unseen == y + (z + rest)
  {
    assert (out + unseen)[|out|..] == unseen;
    assert (out + (y + z) + rest)[|out|..] == y + (z + rest);
  }

  /** Likewise by AUTH PLAIN; credentials that cannot be delivered are refused. */
  method LogInPlain(c: Client, credentials: Sasl.Credentials, ghost cfg: Config, ghost b: ByteRun, ghost ch: Chance,
                    ghost more: string, ghost rest: string)
    returns (r: Option<ClientReplies.Result<()>>)
    requires c.reader.size >= 16 && c.maxLine >= 64 && c.written == ""
    requires Waiting(cfg, b.run) && Base64.IsBytes(Sasl.Payload(credentials))
    requires ch.session.mechanisms.Some? && Contains(ch.session.mechanisms.value, "PLAIN")
    requires |PlainLine(credentials)| <= cfg.maxLineLength && Stream(b) == PlainLine(credentials) + CRLF + more
    requires b.run.out + c.Unseen() == Play(cfg, b, [ch]).run.out + rest
    requires var reply := ch.session.plain(credentials.identity, credentials.username, credentials.password);
             !reply.Hijacked?
             && (reply.Rejected? ==> |StatusLine(false, ErrorText(reply.error, cfg.strictSessionErrors))| <= c.maxLine)
    modifies c`written, c.reader
    ensures c.written + more == Stream(b)
    ensures var reply := ch.session.plain(credentials.identity, credentials.username, credentials.password);
            r == if Sasl.Deliverable(credentials) then Outcome(cfg, reply)
                 else Some(Refused(StatusLine(false, MessageOf(BadPlain))))
    ensures c.Unseen() == Render(Play(cfg, b, [ch]).run.farewell) + rest
  {
    hide Play, Render, OkReply, PlainLine, StatusLine, ErrorText, Outcome, Waiting, Sasl.Deliverable, Contains,
         MessageOf, Base64.IsBytes, Sasl.Payload;
    ghost var reply := ch.session.plain(credentials.identity, credentials.username, credentials.password);
    ghost var farewell := Render(Play(cfg, b, [ch]).run.farewell);
    PlainFromBytes(cfg, b, credentials, more, ch);
    DoneShort();
    if Sasl.Deliverable(credentials) {
      RegroupedOne(b.run.out, Render(AnswerTo(cfg, reply)), farewell, rest, c.Unseen());
      OutcomeRead(cfg, c.Bounds(), reply, farewell + rest);
      OutcomeSome(cfg, reply);
    } else {
      RegroupedOne(b.run.out, Render(Status(false, BadPlain)), farewell, rest, c.Unseen());
      AnswerRead(c.Bounds(), false, BadPlain, farewell + rest);
    }
    r := c.AuthPlain(credentials);
    assert "" + PlainLine(credentials) + CRLF == PlainLine(credentials) + CRLF;
  }
}
