/** What every command keeps, whatever the session answers, and the order in which the session is
    called over whole runs. */
module Discipline {
  import opened Text
  import opened Sessions
  import opened Protocol
  import Sasl

  // ----- The order of session calls -----

  predicate IsAuthentication(c: Call) {
    c.CallLogin? || c.CallPlain?
  }

  predicate IsAccepted(c: Call) {
    IsAuthentication(c) && c.reply == Accepted
  }

  predicate IsMailboxCall(c: Call) {
    c.CallStat? || c.CallList? || c.CallUidl? || c.CallRetr? || c.CallTop? || c.CallDele? ||
    c.CallRset? || c.CallNoop? || c.CallQuit?
  }

  ghost predicate AcceptedBefore(calls: seq<Call>, i: nat)
    requires i <= |calls|
  {
    exists j :: 0 <= j < i && IsAccepted(calls[j])
  }

  /** The discipline a session may rely on: the maildrop is used only after a login that was
      accepted, no login follows one that was not rejected, only Close follows Quit or a
      hijack, and nothing follows Close. */
  ghost predicate Disciplined(calls: seq<Call>) {
    && (forall i :: 0 <= i < |calls| && IsMailboxCall(calls[i]) ==> AcceptedBefore(calls, i))
    && (forall i, j :: 0 <= i < j < |calls| && IsAuthentication(calls[i]) && !calls[i].reply.Rejected? ==>
          !IsAuthentication(calls[j]))
    && (forall i, j :: 0 <= i < j < |calls| && calls[i].CallQuit? ==> calls[j].CallClose?)
    && (forall i, j :: 0 <= i < j < |calls| && IsAuthentication(calls[i]) && calls[i].reply == Hijacked ==>
          calls[j].CallClose?)
    && (forall i :: 0 <= i < |calls| - 1 ==> !calls[i].CallClose?)
  }

  /** What the calls so far say about a connection that is still being served. */
  ghost predicate Tracks(calls: seq<Call>, authenticated: bool) {
    && (authenticated <==> AcceptedBefore(calls, |calls|))
    && (forall i :: 0 <= i < |calls| ==> !calls[i].CallClose? && !calls[i].CallQuit?)
    && (forall i :: 0 <= i < |calls| && IsAuthentication(calls[i]) ==>
          calls[i].reply.Rejected? || (calls[i].reply == Accepted && authenticated))
  }

  ghost predicate CallsSane(r: Run) {
    && Disciplined(r.calls)
    && (r.live ==> Tracks(r.calls, r.st.authenticated))
    && (!r.live ==> r.calls != [] && r.calls[|r.calls| - 1].CallClose?)
  }

  // ----- What every command does, whatever the session answers -----

  /** At most one call of the session is made, and only one the state allows; a login call
      passes the username held by the connection, where authentication is allowed. */
  predicate CallAllowed(cfg: Config, st: ConnState, e: Effect, x: Call) {
    && !x.CallClose?
    && (IsMailboxCall(x) ==> st.authenticated)
    && (x.CallQuit? ==> e.quit)
    && e.next.authenticated == (st.authenticated || IsAccepted(x))
    && (IsAuthentication(x) ==>
          && !st.authenticated
          && (x.reply == Hijacked ==> e.next.hijacked)
          && x.secure == st.isTLS
          && AuthAllowed(cfg, st))
    && (x.CallLogin? ==> x.username == st.username && st.username != "" && x.password != "")
    && (x.CallPlain? ==> !ContainsCTL(x.identity) && !ContainsCTL(x.username))
  }

  predicate CallsAllowed(cfg: Config, st: ConnState, e: Effect) {
    && |e.calls| <= 1
    && (e.calls == [] ==> e.next.authenticated == st.authenticated)
    && (|e.calls| == 1 ==> CallAllowed(cfg, st, e, e.calls[0]))
  }

  /** The error count rises by at most one, and with it comes the back-off for the new count;
      only a failed login that is exempt from counting sleeps without being counted. */
  predicate Counted(cfg: Config, st: ConnState, e: Effect) {
    || (e.next.errorCount == st.errorCount && e.delays == [])
    || (e.next.errorCount == st.errorCount + 1 && e.delays == Delay(cfg, st.errorCount + 1))
    || (cfg.exemptAuthFailures && e.next.errorCount == st.errorCount && e.delays == Delay(cfg, st.errorCount)
        && |e.calls| == 1 && IsAuthentication(e.calls[0]))
  }

  predicate Supplies(cfg: Config, st: ConnState, c: Command, username: string) {
    c.verb == USER && |c.args| > 0 && c.args[0] == username && !ContainsCTL(username)
    && !st.authenticated && AuthAllowed(cfg, st)
  }

  predicate Upgrades(cfg: Config, st: ConnState, c: Command, env: Env) {
    c.verb == STLS && !st.authenticated && !st.isTLS && cfg.tlsAvailable && !env.pipelined && env.handshake
  }

  /** The username changes only by USER, and the security layer only by a completed STLS with
      nothing pipelined behind it, which also forgets the username. */
  predicate NameKept(cfg: Config, st: ConnState, c: Command, env: Env, e: Effect) {
    || (e.next.username == st.username && e.next.isTLS == st.isTLS)
    || (Upgrades(cfg, st, c, env) && e.next.isTLS && e.next.username == "")
    || (Supplies(cfg, st, c, e.next.username) && e.next.isTLS == st.isTLS && e.calls == []
        && e.response == Status(true, Done))
  }

  predicate Sound(cfg: Config, st: ConnState, c: Command, env: Env, e: Effect) {
    CallsAllowed(cfg, st, e) && Counted(cfg, st, e) && NameKept(cfg, st, c, env, e)
  }

  lemma ErrorSound(cfg: Config, st: ConnState, c: Command, env: Env, n: Notice)
    ensures Sound(cfg, st, c, env, ClientError(cfg, st, n))
  {
  }

  lemma FailureSound(cfg: Config, st: ConnState, c: Command, env: Env, err: SessionError, x: Call)
    requires st.authenticated || !IsMailboxCall(x)
    requires !x.CallClose? && !x.CallQuit? && !IsAuthentication(x)
    ensures Sound(cfg, st, c, env, SessionFailure(cfg, st, err, [x]))
  {
  }

  lemma AnswerSound(cfg: Config, st: ConnState, c: Command, env: Env, r: Response, x: Call)
    requires st.authenticated || !IsMailboxCall(x)
    requires !x.CallClose? && !x.CallQuit? && !IsAuthentication(x)
    ensures Sound(cfg, st, c, env, Answer(st, r, [x]))
    ensures Sound(cfg, st, c, env, Answer(st.(closePending := true), r, [x]))
  {
  }

  lemma AuthenticatedSound(cfg: Config, st: ConnState, c: Command, env: Env, reply: AuthReply, x: Call)
    requires !st.authenticated && AuthAllowed(cfg, st)
    requires IsAuthentication(x) && x.reply == reply && x.secure == st.isTLS
    requires x.CallLogin? ==> x.username == st.username && st.username != "" && x.password != ""
    requires x.CallPlain? ==> !ContainsCTL(x.identity) && !ContainsCTL(x.username)
    ensures Sound(cfg, st, c, env, Authenticated(cfg, st, reply, x))
  {
  }

  lemma FinishAuthSound(cfg: Config, st: ConnState, c: Command, env: Env, encoded: string)
    requires !st.authenticated && AuthAllowed(cfg, st)
    ensures Sound(cfg, st, c, env, FinishAuth(cfg, st, encoded, env))
    ensures Sound(cfg, st, c, env, FinishAuth(cfg, st, encoded, env).(prompted := true))
  {
    ErrorSound(cfg, st, c, env, BadPlain);
    if encoded != "*" && Sasl.DecodePlain(encoded).Some? {
      var d := Sasl.DecodePlain(encoded).value;
      var reply := env.session.plain(d.identity, d.username, d.password);
      AuthenticatedSound(cfg, st, c, env, reply,
                         CallPlain(d.identity, d.username, d.password, st.isTLS, reply));
    }
  }

  lemma HandleAuthSound(cfg: Config, st: ConnState, c: Command, env: Env)
    requires !st.authenticated
    ensures Sound(cfg, st, c, env, HandleAuth(cfg, st, c.args, env))
  {
    ErrorSound(cfg, st, c, env, TlsFirst);
    ErrorSound(cfg, st, c, env, NoSasl);
    ErrorSound(cfg, st, c, env, BadMechanism);
    if AuthAllowed(cfg, st) {
      if |c.args| > 1 {
        FinishAuthSound(cfg, st, c, env, c.args[1]);
      }
      if env.continuation.Some? {
        FinishAuthSound(cfg, st, c, env, TrimSpace(env.continuation.value));
      }
    }
  }

  lemma HandlePassSound(cfg: Config, st: ConnState, c: Command, env: Env)
    requires !st.authenticated
    ensures Sound(cfg, st, c, env, HandlePass(cfg, st, c.raw, env))
  {
    ErrorSound(cfg, st, c, env, TlsFirst);
    ErrorSound(cfg, st, c, env, UserFirst);
    ErrorSound(cfg, st, c, env, PassSyntax);
    if AuthAllowed(cfg, st) && st.username != "" && c.raw != "" {
      var reply := env.session.login(st.username, c.raw);
      AuthenticatedSound(cfg, st, c, env, reply, CallLogin(st.username, c.raw, st.isTLS, reply));
    }
  }

  lemma HandleUserSound(cfg: Config, st: ConnState, c: Command, env: Env)
    requires !st.authenticated && c.verb == USER
    ensures Sound(cfg, st, c, env, HandleUser(cfg, st, c.args))
  {
    ErrorSound(cfg, st, c, env, TlsFirst);
    ErrorSound(cfg, st, c, env, UserSyntax);
    ErrorSound(cfg, st, c, env, BadUsername);
  }

  lemma HandleSTLSSound(cfg: Config, st: ConnState, c: Command, env: Env)
    requires !st.authenticated && c.verb == STLS
    ensures Sound(cfg, st, c, env, HandleSTLS(cfg, st, env))
  {
    ErrorSound(cfg, st, c, env, AlreadyTLS);
    ErrorSound(cfg, st, c, env, NoTLS);
    ErrorSound(cfg, st, c, env, PipelinedAfterSTLS);
  }

  lemma HandleLangSound(cfg: Config, st: ConnState, c: Command, env: Env)
    ensures Sound(cfg, st, c, env, HandleLang(cfg, st, c.args, env))
  {
    match env.session.lang
    case None => ErrorSound(cfg, st, c, env, NoLang);
    case Some(lang) =>
      if |c.args| == 0 {
        match lang.list
        case Err(e) => FailureSound(cfg, st, c, env, e, CallListLanguages);
        case Ok(langs) => AnswerSound(cfg, st, c, env, Listing(LanguagesFollow, LangLines(langs)), CallListLanguages);
      } else {
        var x := CallSetLanguage(c.args[0]);
        match lang.set_(c.args[0])
        case Err(e) => FailureSound(cfg, st, c, env, e, x);
        case Ok(tag) => AnswerSound(cfg, st, c, env, Status(true, LanguageSet(tag)), x);
      }
  }

  lemma HandleUTF8Sound(cfg: Config, st: ConnState, c: Command, env: Env)
    ensures Sound(cfg, st, c, env, HandleUTF8(cfg, st, env))
  {
    match env.session.utf8
    case None => ErrorSound(cfg, st, c, env, NoUtf8);
    case Some(Err(e)) => FailureSound(cfg, st, c, env, e, CallEnableUTF8);
    case Some(Ok(_)) => AnswerSound(cfg, st, c, env, Status(true, Utf8Enabled), CallEnableUTF8);
  }

  lemma HandleListSound(cfg: Config, st: ConnState, c: Command, env: Env)
    requires st.authenticated
    ensures Sound(cfg, st, c, env, HandleList(cfg, st, c.args, env))
  {
    match ParseOptionalMsgNum(c.args)
    case Bad(n) => ErrorSound(cfg, st, c, env, n);
    case Good(num) =>
      match env.session.list(num)
      case Err(e) => FailureSound(cfg, st, c, env, e, CallList(num));
      case Ok(items) =>
        FailureSound(cfg, st, c, env, NO_SUCH_MESSAGE, CallList(num));
        AnswerSound(cfg, st, c, env, HandleList(cfg, st, c.args, env).response, CallList(num));
  }

  lemma HandleUidlSound(cfg: Config, st: ConnState, c: Command, env: Env)
    requires st.authenticated
    ensures Sound(cfg, st, c, env, HandleUidl(cfg, st, c.args, env))
  {
    match ParseOptionalMsgNum(c.args)
    case Bad(n) => ErrorSound(cfg, st, c, env, n);
    case Good(num) =>
      match env.session.uidl(num)
      case Err(e) => FailureSound(cfg, st, c, env, e, CallUidl(num));
      case Ok(items) =>
        FailureSound(cfg, st, c, env, NO_SUCH_MESSAGE, CallUidl(num));
        AnswerSound(cfg, st, c, env, HandleUidl(cfg, st, c.args, env).response, CallUidl(num));
  }

  lemma HandleRetrSound(cfg: Config, st: ConnState, c: Command, env: Env)
    requires st.authenticated
    ensures Sound(cfg, st, c, env, HandleRetr(cfg, st, c.args, env))
  {
    match ParseMsgNum(c.args)
    case Bad(n) => ErrorSound(cfg, st, c, env, n);
    case Good(num) =>
      match env.session.retr(num)
      case Err(e) => FailureSound(cfg, st, c, env, e, CallRetr(num));
      case Ok(body) => AnswerSound(cfg, st, c, env, HandleRetr(cfg, st, c.args, env).response, CallRetr(num));
  }

  lemma HandleTopSound(cfg: Config, st: ConnState, c: Command, env: Env)
    requires st.authenticated
    ensures Sound(cfg, st, c, env, HandleTop(cfg, st, c.args, env))
  {
    ErrorSound(cfg, st, c, env, TopSyntax);
    ErrorSound(cfg, st, c, env, BadLines);
    if |c.args| >= 2 {
      match ParseMsgNum(c.args[..1])
      case Bad(n) => ErrorSound(cfg, st, c, env, n);
      case Good(num) =>
    }
  }

  lemma HandleDeleSound(cfg: Config, st: ConnState, c: Command, env: Env)
    requires st.authenticated
    ensures Sound(cfg, st, c, env, HandleDele(cfg, st, c.args, env))
  {
    match ParseMsgNum(c.args)
    case Bad(n) => ErrorSound(cfg, st, c, env, n);
    case Good(num) =>
      match env.session.dele(num)
      case Err(e) => FailureSound(cfg, st, c, env, e, CallDele(num));
      case Ok(_) => AnswerSound(cfg, st, c, env, Status(true, Deleted), CallDele(num));
  }

  lemma HandleStatSound(cfg: Config, st: ConnState, c: Command, env: Env)
    requires st.authenticated
    ensures Sound(cfg, st, c, env, HandleStat(cfg, st, env))
  {
    match env.session.stat
    case Err(e) => FailureSound(cfg, st, c, env, e, CallStat);
    case Ok(v) => AnswerSound(cfg, st, c, env, Status(true, Totals(v.0, v.1)), CallStat);
  }

  lemma HandleRsetSound(cfg: Config, st: ConnState, c: Command, env: Env)
    requires st.authenticated
    ensures Sound(cfg, st, c, env, HandleRset(cfg, st, env))
    ensures Sound(cfg, st, c, env, HandleNoop(cfg, st, env))
  {
    match env.session.rset {
      case Err(e) => FailureSound(cfg, st, c, env, e, CallRset);
      case Ok(_) => AnswerSound(cfg, st, c, env, Status(true, WasReset), CallRset);
    }
    match env.session.noop {
      case Err(e) => FailureSound(cfg, st, c, env, e, CallNoop);
      case Ok(_) => AnswerSound(cfg, st, c, env, Status(true, Done), CallNoop);
    }
  }

  lemma HandleQuitSound(cfg: Config, st: ConnState, c: Command, env: Env)
    requires st.authenticated
    ensures Sound(cfg, st, c, env, HandleQuit(cfg, st, env))
  {
  }

  lemma DispatchAuthSound(cfg: Config, st: ConnState, c: Command, env: Env)
    requires !st.authenticated
    ensures Sound(cfg, st, c, env, DispatchAuth(cfg, st, c, env))
  {
    match c.verb
    case USER => HandleUserSound(cfg, st, c, env);
    case PASS => HandlePassSound(cfg, st, c, env);
    case AUTH => HandleAuthSound(cfg, st, c, env);
    case STLS => HandleSTLSSound(cfg, st, c, env);
    case UTF8 => HandleUTF8Sound(cfg, st, c, env);
    case LANG => HandleLangSound(cfg, st, c, env);
    case Other(name) => ErrorSound(cfg, st, c, env, UnknownCommand(name));
    case CAPA =>
    case QUIT =>
    case LAST =>
    case _ => ErrorSound(cfg, st, c, env, NotAuthenticated);
  }

  lemma DispatchTransactionSound(cfg: Config, st: ConnState, c: Command, env: Env)
    requires st.authenticated
    ensures Sound(cfg, st, c, env, DispatchTransaction(cfg, st, c, env))
  {
    match c.verb
    case CAPA =>
    case LIST => HandleListSound(cfg, st, c, env);
    case UIDL => HandleUidlSound(cfg, st, c, env);
    case RETR => HandleRetrSound(cfg, st, c, env);
    case DELE => HandleDeleSound(cfg, st, c, env);
    case TOP => HandleTopSound(cfg, st, c, env);
    case STAT => HandleStatSound(cfg, st, c, env);
    case RSET => HandleRsetSound(cfg, st, c, env);
    case NOOP => HandleRsetSound(cfg, st, c, env);
    case QUIT => HandleQuitSound(cfg, st, c, env);
    case LANG => HandleLangSound(cfg, st, c, env);
    case UTF8 => HandleUTF8Sound(cfg, st, c, env);
    case LAST =>
    case _ => ErrorSound(cfg, st, c, env, UnknownCommand(NameOf(c.verb)));
  }

  lemma DispatchSound(cfg: Config, st: ConnState, c: Command, env: Env)
    ensures Sound(cfg, st, c, env, Dispatch(cfg, st, c, env))
  {
    if st.authenticated {
      DispatchTransactionSound(cfg, st, c, env);
    } else {
      DispatchAuthSound(cfg, st, c, env);
    }
  }

  // ----- The order of the calls over a run -----

  lemma CallsSnoc(calls: seq<Call>, authenticated: bool, x: Call)
    requires Disciplined(calls) && Tracks(calls, authenticated)
    requires IsMailboxCall(x) ==> authenticated
    requires IsAuthentication(x) ==> !authenticated
    ensures Disciplined(calls + [x])
    ensures AcceptedBefore(calls + [x], |calls| + 1) <==> authenticated || IsAccepted(x)
  {
    var all := calls + [x];
    forall i | 0 <= i < |all| && IsMailboxCall(all[i])
      ensures AcceptedBefore(all, i)
    {
      if i < |calls| || AcceptedBefore(calls, |calls|) {
        var n := if i < |calls| then i else |calls|;
        assert calls[..n] == all[..n];
        assert AcceptedBefore(calls, n);
        var j :| 0 <= j < n && IsAccepted(calls[j]);
        assert IsAccepted(all[j]);
      }
    }
    if authenticated {
      var j :| 0 <= j < |calls| && IsAccepted(calls[j]);
      assert IsAccepted(all[j]);
    }
    if IsAccepted(x) {
      assert IsAccepted(all[|calls|]);
    }
    if AcceptedBefore(all, |calls| + 1) {
      var j :| 0 <= j < |calls| + 1 && IsAccepted(all[j]);
      if j < |calls| {
        assert IsAccepted(calls[j]);
      }
    }
  }

  /** Close may come at any time, and is the last call. */
  lemma CloseSnoc(calls: seq<Call>)
    requires Disciplined(calls) && forall i :: 0 <= i < |calls| ==> !calls[i].CallClose?
    ensures Disciplined(calls + [CallClose])
  {
    var all := calls + [CallClose];
    forall i | 0 <= i < |all| && IsMailboxCall(all[i])
      ensures AcceptedBefore(all, i)
    {
      assert AcceptedBefore(calls, i);
      var j :| 0 <= j < i && IsAccepted(calls[j]);
      assert IsAccepted(all[j]);
    }
  }

  lemma AdvanceCalls(cfg: Config, r: Run, line: string, env: Env, e: Effect)
    requires CallsSane(r) && r.live && CallsAllowed(cfg, r.st, e)
    ensures CallsSane(Advance(cfg, r, line, env, e))
  {
    var calls := r.calls + e.calls;
    if e.calls == [] {
      assert calls == r.calls;
    } else {
      assert e.calls == [e.calls[0]];
      CallsSnoc(r.calls, r.st.authenticated, e.calls[0]);
    }
    if Ends(cfg, e, env.flushed) {
      CloseSnoc(calls);
    } else {
      assert calls + [] == calls;
    }
  }

  lemma StepCalls(cfg: Config, r: Run, event: Event)
    requires CallsSane(r)
    ensures CallsSane(Step(cfg, r, event))
  {
    if r.live {
      match event.input
      case ReadFailed(f) => CloseSnoc(r.calls);
      case Received(raw) =>
        var line := TrimSpace(raw);
        if line != "" {
          var c := ParseCommand(line);
          DispatchSound(cfg, r.st, c, event.env);
          AdvanceCalls(cfg, r, line, event.env, Dispatch(cfg, r.st, c, event.env));
        }
    }
  }

  lemma {:induction false} ExecCalls(cfg: Config, r: Run, events: seq<Event>)
    requires CallsSane(r)
    ensures CallsSane(Exec(cfg, r, events))
    decreases |events|
  {
    if events != [] {
      StepCalls(cfg, r, events[0]);
      ExecCalls(cfg, Step(cfg, r, events[0]), events[1..]);
    }
  }

  /** Over every run the session is called in the disciplined order; Close is called exactly
      when the connection has ended, and so at most once. */
  lemma CallDiscipline(cfg: Config, isTLS: bool, flushed: bool, events: seq<Event>)
    ensures var r := Exec(cfg, Start(cfg, isTLS, flushed), events);
            && Disciplined(r.calls)
            && (!r.live <==> exists i :: 0 <= i < |r.calls| && r.calls[i].CallClose?)
  {
    ExecCalls(cfg, Start(cfg, isTLS, flushed), events);
  }
}
