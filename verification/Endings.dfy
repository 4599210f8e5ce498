/** When a connection ends, over whole runs: exactly for the reasons listed here. */
module Endings {
  import opened Lines
  import opened Text
  import opened Numbers
  import opened Sessions
  import opened Protocol
  import Reports
  import Served
  import Sasl
  import DotStuffWriters

  /** The errors with which a session asks to close. */
  predicate Closes(e: SessionError) {
    e == CloseConnection || (e.Protocol? && e.close)
  }

  predicate SessionAskedToClose(r: Response) {
    r.Status? && r.notice.OfSession? && Closes(r.notice.error)
  }

  predicate WasHijacked(calls: seq<Call>) {
    |calls| == 1 && (calls[0].CallLogin? || calls[0].CallPlain?) && calls[0].reply == Hijacked
  }

  predicate LostHandshake(cfg: Config, st: ConnState, c: Command, env: Env) {
    c.verb == STLS && !st.authenticated && !st.isTLS && cfg.tlsAvailable && (env.pipelined || !env.handshake)
  }

  /** The reasons for which a command ends the connection. */
  predicate Reason(cfg: Config, st: ConnState, c: Command, env: Env, e: Effect) {
    || c.verb == QUIT
    || WasHijacked(e.calls)
    || SessionAskedToClose(e.response)
    || (e.prompted && env.continuation.None?)
    || e.response.Broken?
    || LostHandshake(cfg, st, c, env)
  }

  predicate Open(st: ConnState) {
    !st.hijacked && !st.closePending
  }

  predicate Justified(cfg: Config, st: ConnState, c: Command, env: Env, e: Effect) {
    (WantsToEnd(e) <==> Reason(cfg, st, c, env, e)) && (!WantsToEnd(e) ==> Open(e.next))
  }

  lemma AuthenticatedJustified(cfg: Config, st: ConnState, c: Command, d: Option<Sasl.Credentials>, env: Env)
    requires Open(st) && c.verb == AUTH
    ensures Justified(cfg, st, c, env, Decoded(cfg, st, d, env))
    ensures Justified(cfg, st, c, env, Answer(st, Status(false, Aborted), []))
    ensures env.continuation.Some? ==> Justified(cfg, st, c, env, Decoded(cfg, st, d, env).(prompted := true))
  {
  }

  lemma AuthJustified(cfg: Config, st: ConnState, c: Command, env: Env)
    requires Open(st) && c.verb == AUTH
    ensures Justified(cfg, st, c, env, HandleAuth(cfg, st, c.args, env))
  {
    hide Sasl.DecodePlain, Decoded;
    if |c.args| > 1 {
      AuthenticatedJustified(cfg, st, c, Sasl.DecodePlain(c.args[1]), env);
    }
    if env.continuation.Some? {
      AuthenticatedJustified(cfg, st, c, Sasl.DecodePlain(TrimSpace(env.continuation.value)), env);
    }
  }

  lemma AuthorizationJustified(cfg: Config, st: ConnState, c: Command, env: Env)
    requires Open(st) && !st.authenticated
    ensures Justified(cfg, st, c, env, DispatchAuth(cfg, st, c, env))
  {
    hide HandleAuth, Advertised, CapLines, LangLines;
    if c.verb == AUTH {
      AuthJustified(cfg, st, c, env);
    }
  }

  lemma ListingJustified(cfg: Config, st: ConnState, c: Command, env: Env)
    requires Open(st) && st.authenticated && c.verb != QUIT
    ensures Justified(cfg, st, c, env, HandleList(cfg, st, c.args, env))
    ensures Justified(cfg, st, c, env, HandleUidl(cfg, st, c.args, env))
  {
    hide ParseMsgNum, ListLines, UidlLines;
  }

  lemma BodyJustified(cfg: Config, st: ConnState, c: Command, env: Env)
    requires Open(st) && st.authenticated && c.verb != QUIT
    ensures Justified(cfg, st, c, env, HandleRetr(cfg, st, c.args, env))
    ensures Justified(cfg, st, c, env, HandleTop(cfg, st, c.args, env))
  {
    hide ParseMsgNum, ParseNumber, DotStuffWriters.Concat;
  }

  lemma SimpleJustified(cfg: Config, st: ConnState, c: Command, env: Env)
    requires Open(st) && st.authenticated && c.verb != QUIT
    ensures Justified(cfg, st, c, env, HandleStat(cfg, st, env))
    ensures Justified(cfg, st, c, env, HandleDele(cfg, st, c.args, env))
    ensures Justified(cfg, st, c, env, HandleRset(cfg, st, env))
    ensures Justified(cfg, st, c, env, HandleNoop(cfg, st, env))
  {
    hide ParseMsgNum;
  }

  lemma ExtensionsJustified(cfg: Config, st: ConnState, c: Command, env: Env)
    requires Open(st) && st.authenticated && c.verb != QUIT
    ensures Justified(cfg, st, c, env, HandleLang(cfg, st, c.args, env))
    ensures Justified(cfg, st, c, env, HandleUTF8(cfg, st, env))
  {
    hide LangLines;
  }

  lemma TransactionJustified(cfg: Config, st: ConnState, c: Command, env: Env)
    requires Open(st) && st.authenticated
    ensures Justified(cfg, st, c, env, DispatchTransaction(cfg, st, c, env))
  {
    hide HandleStat, HandleList, HandleUidl, HandleRetr, HandleTop, HandleDele, HandleRset, HandleNoop, HandleLang,
         HandleUTF8, Advertised, CapLines;
    if c.verb != QUIT {
      ListingJustified(cfg, st, c, env);
      BodyJustified(cfg, st, c, env);
      SimpleJustified(cfg, st, c, env);
      ExtensionsJustified(cfg, st, c, env);
    }
  }

  /** A command of an open connection ends it exactly for one of the reasons, in either state. */
  lemma DispatchJustified(cfg: Config, st: ConnState, c: Command, env: Env)
    requires Open(st)
    ensures Justified(cfg, st, c, env, Dispatch(cfg, st, c, env))
  {
    hide DispatchAuth, DispatchTransaction, Justified;
    if st.authenticated {
      TransactionJustified(cfg, st, c, env);
    } else {
      AuthorizationJustified(cfg, st, c, env);
    }
  }

  /** What every run shows: an answered command after which the loop went on gave no reason to
      end, was below the error limit and was flushed; the connection is over exactly when the
      last command did end it or no line could be read (`cut`). */
  ghost predicate Justifies(cfg: Config, r: Run, cut: bool) {
    && (forall i :: 0 <= i < |r.entries| ==> EntryJustified(cfg, r.entries[i]))
    && (forall i :: 0 <= i < |r.entries| - 1 ==> !EntryEnds(cfg, r.entries[i]))
    && (r.live ==> Open(r.st) && !cut)
    && (!cut ==> (r.live <==> r.entries == [] || !EntryEnds(cfg, r.entries[|r.entries| - 1])))
    && (cut ==> r.entries == [] || !EntryEnds(cfg, r.entries[|r.entries| - 1]))
  }

  predicate EntryJustified(cfg: Config, e: Entry) {
    Open(e.before) && Justified(cfg, e.before, ParseCommand(e.line), e.env, e.effect)
  }

  predicate EntryEnds(cfg: Config, e: Entry) {
    Reason(cfg, e.before, ParseCommand(e.line), e.env, e.effect)
    || MaxErrorsExceeded(cfg, e.effect.next)
    || !e.env.flushed
  }

  lemma AdvanceJustifies(cfg: Config, r: Run, line: string, env: Env)
    requires Justifies(cfg, r, false) && r.live
    ensures Justifies(cfg, Advance(cfg, r, line, env, Dispatch(cfg, r.st, ParseCommand(line), env)), false)
  {
    hide Dispatch, ParseCommand, Reason, Render, RenderEffect, MaxErrorsExceeded;
    DispatchJustified(cfg, r.st, ParseCommand(line), env);
  }

  /** Whether a read failed while the connection was still served. */
  function Cut(cfg: Config, r: Run, events: seq<Event>): bool
    decreases |events|
  {
    events != [] && ((r.live && events[0].input.ReadFailed?) || Cut(cfg, Step(cfg, r, events[0]), events[1..]))
  }

  lemma {:induction false} ExecJustifies(cfg: Config, r: Run, events: seq<Event>)
    requires Justifies(cfg, r, false)
    ensures Justifies(cfg, Exec(cfg, r, events), Cut(cfg, r, events))
    decreases |events|
  {
    hide Advance, Dispatch, ParseCommand, Justifies, TrimSpace, Render;
    if events != [] {
      var r1 := Step(cfg, r, events[0]);
      if !r.live {
        ExecJustifies(cfg, r, events[1..]);
      } else if events[0].input.ReadFailed? {
        AbandonJustifies(cfg, r, events[0].input.failure);
        ExecDead(cfg, r1, events[1..]);
      } else {
        var line := TrimSpace(events[0].input.line);
        if line != "" {
          AdvanceJustifies(cfg, r, line, events[0].env);
        }
        ExecJustifies(cfg, r1, events[1..]);
      }
    }
  }

  lemma AbandonJustifies(cfg: Config, r: Run, f: Failure)
    requires Justifies(cfg, r, false) && r.live
    ensures Justifies(cfg, Abandon(r, f), true)
  {
    hide Reason, ParseCommand, Render;
  }

  /** Over every run whose greeting went out: the connection ends exactly after a command with
      one of the reasons above, at the error limit, on a failed flush, or when no line can be
      read; no other command ends it, and none is answered after one that does. */
  lemma EndsExactlyForReasons(cfg: Config, isTLS: bool, events: seq<Event>)
    ensures Justifies(cfg, Exec(cfg, Start(cfg, isTLS, true), events), Cut(cfg, Start(cfg, isTLS, true), events))
  {
    hide Render;
    ExecJustifies(cfg, Start(cfg, isTLS, true), events);
  }

  // ----- Errors of the session -----

  /** The error the session replies to a call with, if it does. */
  function ErrorOf(s: Session, x: Call): Option<SessionError> {
    match x
    case CallLogin(name, word, _, _) => Rejection(s.login(name, word))
    case CallPlain(id, name, word, _, _) => Rejection(s.plain(id, name, word))
    case CallStat => Failure1(s.stat)
    case CallList(num) => Failure1(s.list(num))
    case CallUidl(num) => Failure1(s.uidl(num))
    case CallRetr(num) => Failure1(s.retr(num))
    case CallTop(num, lines) => Failure1(s.top(num, lines))
    case CallDele(num) => Failure1(s.dele(num))
    case CallRset => Failure1(s.rset)
    case CallNoop => Failure1(s.noop)
    case CallQuit => Failure1(s.quit)
    case CallListLanguages => if s.lang.Some? then Failure1(s.lang.value.list) else None
    case CallSetLanguage(tag) => if s.lang.Some? then Failure1(s.lang.value.set_(tag)) else None
    case CallEnableUTF8 => if s.utf8.Some? then Failure1(s.utf8.value) else None
    case CallClose => None
  }

  function Rejection(r: AuthReply): Option<SessionError> {
    if r.Rejected? then Some(r.error) else None
  }

  function Failure1<T>(r: Reply<T>): Option<SessionError> {
    if r.Err? then Some(r.error) else None
  }

  lemma ErrorReported(cfg: Config, s: Session, x: Call, r: Response)
    requires Reports.Reports(cfg, s, x, r) && ErrorOf(s, x).Some?
    ensures r == Reports.Refusal(cfg, ErrorOf(s, x).value)
    ensures x.CallLogin? || x.CallPlain? ==> x.reply.Rejected?
  {
  }

  /** Without a further line there is no call, and neither is one for STLS. */
  lemma NoCallThen(cfg: Config, st: ConnState, c: Command, env: Env)
    ensures var e := Dispatch(cfg, st, c, env);
            (e.prompted && env.continuation.None?) || (c.verb == STLS && !st.authenticated) ==> e.calls == []
  {
    hide FinishAuth, HandleCapa, HandleUser, HandlePass, HandleUTF8, HandleLang, HandleStat, HandleList, HandleUidl,
         HandleRetr, HandleTop, HandleDele, HandleRset, HandleNoop, HandleQuit, Contains, ToUpper;
    NotPrompted(cfg, st, c, env);
    if |c.args| > 1 {
      FinishUnprompted(cfg, st, c.args[1], env);
    }
  }

  lemma FinishUnprompted(cfg: Config, st: ConnState, encoded: string, env: Env)
    ensures !FinishAuth(cfg, st, encoded, env).prompted
  {
    hide Sasl.DecodePlain;
  }

  lemma NotPrompted(cfg: Config, st: ConnState, c: Command, env: Env)
    ensures Dispatch(cfg, st, c, env).prompted ==> !st.authenticated && c.verb == AUTH
  {
    hide DispatchAuth, DispatchTransaction;
    if st.authenticated {
      Served.SessionOnly(cfg, st, c, env, env);
    } else {
      NotPromptedBefore(cfg, st, c, env);
    }
  }

  lemma NotPromptedBefore(cfg: Config, st: ConnState, c: Command, env: Env)
    ensures DispatchAuth(cfg, st, c, env).prompted ==> c.verb == AUTH
  {
    hide HandleAuth, Advertised, CapLines, LangLines, Delay;
  }

  /** What the session's error decides, for every call of every command, logins included: it is
      answered, and if it asks to close the connection ends; if not the connection stays, below the
      error limit and unless the flush fails or the command was QUIT. */
  lemma SessionErrorDecides(cfg: Config, r: Run, line: string, env: Env, err: SessionError)
    requires r.live && Open(r.st)
    requires var e := Dispatch(cfg, r.st, ParseCommand(line), env);
             |e.calls| == 1 && ErrorOf(env.session, e.calls[0]) == Some(err)
    ensures var c := ParseCommand(line);
            var e := Dispatch(cfg, r.st, c, env);
            var r' := Advance(cfg, r, line, env, e);
            && e.response == Status(false, OfSession(err, cfg.strictSessionErrors))
            && (Closes(err) ==> !r'.live)
            && ((!Closes(err) && c.verb != QUIT && env.flushed
                 && (cfg.maxErrors <= 0 || e.next.errorCount < cfg.maxErrors)) ==> r'.live)
  {
    hide Dispatch, ParseCommand, Render, RenderEffect, ErrorOf, Reports.Reports;
    var c := ParseCommand(line);
    var e := Dispatch(cfg, r.st, c, env);
    DispatchJustified(cfg, r.st, c, env);
    Reports.DispatchJudged(cfg, r.st, c, env);
    ErrorReported(cfg, env.session, e.calls[0], e.response);
    NoCallThen(cfg, r.st, c, env);
  }
}
