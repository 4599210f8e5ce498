/** The server of a conversation is the one that runs from bytes: fed with the bytes of the
    client's calls, the connection's own loop answers as the abstract maildrop says. */
module Served {
  import opened Lines
  import opened Text
  import opened Numbers
  import opened Sessions
  import opened Protocol
  import opened Maildrop
  import opened ClientReplies
  import opened LineReader
  import opened Wire
  import opened Dialogue
  import EndToEnd
  import ServerSide
  import ClientSide
  import DotStuffWriters

  /** Two runs in the same state that have done the same, whatever their steps were told of
      things they did not ask for. */
  predicate Same(r: Run, r': Run) {
    r.st == r'.st && r.live == r'.live && r.out == r'.out && r.calls == r'.calls && r.slept == r'.slept
  }

  /** An effect that takes no further line and stays on its layer and in its state. */
  predicate Settled(st: ConnState, e: Effect) {
    !e.prompted && e.next.isTLS == st.isTLS && e.next.authenticated == st.authenticated
  }

  lemma LangOfSession(cfg: Config, st: ConnState, args: seq<string>, env: Env, env': Env)
    requires env.session == env'.session
    ensures HandleLang(cfg, st, args, env) == HandleLang(cfg, st, args, env')
    ensures Settled(st, HandleLang(cfg, st, args, env))
  {
    hide LangLines, Delay;
  }

  lemma ExtensionsOfSession(cfg: Config, st: ConnState, env: Env, env': Env)
    requires env.session == env'.session
    ensures HandleUTF8(cfg, st, env) == HandleUTF8(cfg, st, env') && Settled(st, HandleUTF8(cfg, st, env))
    ensures HandleCapa(cfg, st, env) == HandleCapa(cfg, st, env') && Settled(st, HandleCapa(cfg, st, env))
  {
    hide CapLines, Advertised, Delay;
  }

  lemma ListingsOfSession(cfg: Config, st: ConnState, args: seq<string>, env: Env, env': Env)
    requires env.session == env'.session
    ensures HandleStat(cfg, st, env) == HandleStat(cfg, st, env') && Settled(st, HandleStat(cfg, st, env))
    ensures HandleList(cfg, st, args, env) == HandleList(cfg, st, args, env')
    ensures Settled(st, HandleList(cfg, st, args, env))
    ensures HandleUidl(cfg, st, args, env) == HandleUidl(cfg, st, args, env')
    ensures Settled(st, HandleUidl(cfg, st, args, env))
  {
    hide ParseOptionalMsgNum, ListLines, UidlLines;
  }

  lemma BodiesSettled(st: ConnState)
    ensures forall n: Notice, body: Body, x: Call :: Settled(st, SendBody(st, n, body, x))
  {
    hide DotStuffWriters.Concat;
  }

  lemma ErrorsSettled(cfg: Config, st: ConnState)
    ensures forall n: Notice :: Settled(st, ClientError(cfg, st, n))
    ensures forall e: SessionError, calls: seq<Call> :: Settled(st, SessionFailure(cfg, st, e, calls))
  {
    hide Delay;
  }

  lemma RetrOfSession(cfg: Config, st: ConnState, args: seq<string>, env: Env, env': Env)
    requires env.session == env'.session
    ensures HandleRetr(cfg, st, args, env) == HandleRetr(cfg, st, args, env')
    ensures Settled(st, HandleRetr(cfg, st, args, env))
  {
    hide ParseMsgNum, SendBody, ClientError, SessionFailure;
    ErrorsSettled(cfg, st);
    BodiesSettled(st);
  }

  lemma TopOfSession(cfg: Config, st: ConnState, args: seq<string>, env: Env, env': Env)
    requires env.session == env'.session
    ensures HandleTop(cfg, st, args, env) == HandleTop(cfg, st, args, env')
    ensures Settled(st, HandleTop(cfg, st, args, env))
  {
    hide ParseMsgNum, ParseNumber, SendBody, ClientError, SessionFailure;
    ErrorsSettled(cfg, st);
    BodiesSettled(st);
  }

  lemma MarksOfSession(cfg: Config, st: ConnState, args: seq<string>, env: Env, env': Env)
    requires env.session == env'.session
    ensures HandleDele(cfg, st, args, env) == HandleDele(cfg, st, args, env')
    ensures Settled(st, HandleDele(cfg, st, args, env))
    ensures HandleRset(cfg, st, env) == HandleRset(cfg, st, env') && Settled(st, HandleRset(cfg, st, env))
  {
    hide ParseMsgNum;
  }

  lemma QuitOfSession(cfg: Config, st: ConnState, env: Env, env': Env)
    requires env.session == env'.session
    ensures HandleNoop(cfg, st, env) == HandleNoop(cfg, st, env') && Settled(st, HandleNoop(cfg, st, env))
    ensures HandleQuit(cfg, st, env) == HandleQuit(cfg, st, env') && Settled(st, HandleQuit(cfg, st, env))
  {
  }

  /** After authentication a command depends on nothing but the session. */
  lemma SessionOnly(cfg: Config, st: ConnState, c: Command, env: Env, env': Env)
    requires st.authenticated && env.session == env'.session
    ensures Dispatch(cfg, st, c, env) == Dispatch(cfg, st, c, env') && Settled(st, Dispatch(cfg, st, c, env))
  {
    hide HandleCapa, HandleStat, HandleList, HandleUidl, HandleRetr, HandleTop, HandleDele, HandleRset, HandleNoop,
         HandleQuit, HandleLang, HandleUTF8;
    LangOfSession(cfg, st, c.args, env, env');
    ExtensionsOfSession(cfg, st, env, env');
    ListingsOfSession(cfg, st, c.args, env, env');
    RetrOfSession(cfg, st, c.args, env, env');
    TopOfSession(cfg, st, c.args, env, env');
    MarksOfSession(cfg, st, c.args, env, env');
    QuitOfSession(cfg, st, env, env');
  }

  /** Turns, one for each call, in which the session answers as the maildrop and the flush works;
      how much has arrived, handshakes and how the stream ends are free. */
  ghost predicate Suits(msgs: seq<Message>, mail: Mail, qs: seq<Request>, chs: seq<Chance>)
    decreases |qs|
  {
    |chs| == |qs|
    && (qs != [] ==>
          && chs[0].session == Dialogue.MailSession(msgs, mail) && chs[0].flushed
          && Suits(msgs, MailAfter(msgs, mail, qs[0]), qs[1..], chs[1..]))
  }

  lemma AdvanceSame(cfg: Config, r: Run, r': Run, line: string, env: Env, env': Env, e: Effect)
    requires Same(r, r') && env.flushed == env'.flushed
    ensures Same(Advance(cfg, r, line, env, e), Advance(cfg, r', line, env', e))
    ensures Advance(cfg, r, line, env, e).st == e.next
  {
    hide Render, RenderEffect;
  }

  /** One line: the turn from the bytes takes just this line, and does what feeding it does. */
  lemma TurnFeeds(cfg: Config, msgs: seq<Message>, s: Server, b: ByteRun, ch: Chance)
    requires Same(s.run, b.run) && s.run.live && s.run.st.authenticated && NextLine(cfg.maxLineLength, Stream(b)).Line?
    requires ch.session == Dialogue.MailSession(msgs, s.mail) && ch.flushed
    ensures var l := NextLine(cfg.maxLineLength, Stream(b));
            var b', s' := Turn(cfg, b, ch), Feed(cfg, msgs, s, l.text);
            Same(s'.run, b'.run) && Stream(b') == l.rest
  {
    hide Dispatch, ParseCommand, Advance, Dialogue.MailSession, NextLine, TrimSpace;
    var l := NextLine(cfg.maxLineLength, Stream(b));
    TakesLine(cfg, Stream(b));
    TurnTook(cfg, b, ch);
    var line := TrimSpace(l.text);
    var env, env' := EnvOf(msgs, s.mail), EnvAt(cfg, ch, l.rest);
    if line != "" {
      SessionOnly(cfg, s.run.st, ParseCommand(line), env, env');
      AdvanceSame(cfg, s.run, b.run, line, env, env', Dispatch(cfg, s.run.st, ParseCommand(line), env));
    }
  }

  lemma TakesLine(cfg: Config, s: string)
    requires NextLine(cfg.maxLineLength, s).Line?
    ensures Take(cfg, s) == Took(NextLine(cfg.maxLineLength, s).text, NextLine(cfg.maxLineLength, s).rest)
  {
  }

  /** The bytes of the calls, whatever comes behind them, are served call by call, and exactly they
      are taken off the stream. */
  lemma {:induction false} FeedIsPlay(cfg: Config, msgs: seq<Message>, s: Server, b: ByteRun, qs: seq<Request>,
                                      chs: seq<Chance>, more: string)
    requires cfg.maxLineLength >= 64 && EndToEnd.Conversation(qs)
    requires Same(s.run, b.run) && Serving(cfg, s.run, Faults(qs))
    requires Stream(b) == RequestBytes(qs) + more && Suits(msgs, s.mail, qs, chs)
    ensures var b' := Play(cfg, b, chs);
            Same(FeedBytes(cfg, msgs, s, RequestBytes(qs)).run, b'.run) && Stream(b') == more
    decreases |qs|
  {
    hide NextLine, Turn, Feed, RequestLine, MailAfter, FeedBytes, Respond, Dialogue.MailSession;
    if qs == [] {
      EndToEnd.NoInput(cfg, msgs, s);
      assert "" + more == more;
    } else {
      var q, rest := qs[0], RequestBytes(qs[1..]);
      var s', b' := Feed(cfg, msgs, s, RequestLine(q)), Turn(cfg, b, chs[0]);
      FirstLine(cfg, q, Stream(b), rest, more);
      TurnFeeds(cfg, msgs, s, b, chs[0]);
      EndToEnd.FeedFirst(cfg, msgs, s, q, rest);
      EndToEnd.FeedOne(cfg, msgs, s, q, Faults(qs[1..]));
      if |qs| == 1 {
        assert qs[1..] == [] && chs[1..] == [];
        EndToEnd.NoInput(cfg, msgs, s');
        assert "" + more == more;
      } else {
        FeedIsPlay(cfg, msgs, s', b', qs[1..], chs[1..], more);
      }
    }
  }

  lemma FirstLine(cfg: Config, q: Request, input: string, rest: string, more: string)
    requires cfg.maxLineLength >= 64 && Is64Bit(q) && input == RequestLine(q) + CRLF + rest + more
    ensures NextLine(cfg.maxLineLength, input) == Line(RequestLine(q), rest + more)
  {
    hide RequestLine;
    ServerSide.RequestShort(q);
    NextLineBack(cfg.maxLineLength, RequestLine(q), rest + more);
    assert input == RequestLine(q) + CRLF + (rest + more);
  }

  /** From bytes to bytes: a connection to which the client's calls are sent, with anything behind
      them, sends the bytes from which the client gets the abstract maildrop's results and stops
      where they end; what came behind is still to be read. */
  lemma BytesToResults(cfg: Config, msgs: seq<Message>, mail: Mail, b: ByteRun, qs: seq<Request>, chs: seq<Chance>,
                       more: string, lim: Limits, rest: string)
    requires WithinLimits(msgs, cfg, lim) && |mail.box| <= MAX_INT64
    requires EndToEnd.Conversation(qs) && Serving(cfg, b.run, Faults(qs))
    requires Stream(b) == RequestBytes(qs) + more && Suits(msgs, mail, qs, chs)
    ensures var b' := Play(cfg, b, chs);
            && (exists sent :: b'.run.out == b.run.out + sent
                               && ClientCalls(lim, qs, sent + rest) == Some((ExpectedCalls(msgs, mail, qs), rest)))
            && Stream(b') == more
            && b'.run.st.errorCount == b.run.st.errorCount + Faults(qs)
            && (b'.run.live <==> (qs == [] || !qs[|qs| - 1].Quit?))
  {
    hide WithinLimits, FeedBytes, ClientCalls, RequestBytes, ExpectedCalls, Play, Suits, EndToEnd.Conversation;
    ClientSide.LimitFacts(msgs, cfg, lim);
    var s := Server(b.run, mail);
    FeedIsPlay(cfg, msgs, s, b, qs, chs, more);
    EndToEnd.Refinement(cfg, msgs, s, qs, lim, rest);
    var s' := FeedBytes(cfg, msgs, s, RequestBytes(qs));
    var sent := EndToEnd.Sent(s, s');
    assert Play(cfg, b, chs).run.out == b.run.out + sent;
  }
}
