/** Errors over whole runs: the count is exactly the client's faults and the logins refused, so
    guessing passwords ends the connection. */
module Counting {
  import opened Lines
  import opened Text
  import opened Sessions
  import opened Protocol
  import opened Reports
  import Budget
  import Delivery
  import Endings
  import Base64
  import Sasl

  /** The logins the session was called for and refused. */
  function Rejections(calls: seq<Call>): nat {
    if calls == [] then 0
    else Rejections(calls[..|calls| - 1]) + if RejectedLogin(calls[|calls| - 1]) then 1 else 0
  }

  lemma RejectionsSnoc(calls: seq<Call>, x: Call)
    ensures Rejections(calls + [x]) == Rejections(calls) + if RejectedLogin(x) then 1 else 0
  {
    assert (calls + [x])[..|calls|] == calls;
  }

  /** The client's faults among the commands answered. */
  function Faults(entries: seq<Entry>): nat {
    if entries == [] then 0
    else Faults(entries[..|entries| - 1]) + if Fault(entries[|entries| - 1].effect.response) then 1 else 0
  }

  /** The count is that of the faults and, unless such are exempt, of the logins refused. */
  predicate Counted(cfg: Config, r: Run) {
    r.st.errorCount == Faults(r.entries) + if cfg.exemptAuthFailures then 0 else Rejections(r.calls)
  }

  lemma AdvanceCalls(cfg: Config, r: Run, line: string, env: Env, e: Effect)
    requires |e.calls| <= 1
    ensures Rejections(Advance(cfg, r, line, env, e).calls) == Rejections(r.calls) + if LoginRejected(e) then 1 else 0
  {
    hide Render, RenderEffect;
    var calls := r.calls + e.calls;
    if e.calls == [] {
      assert calls == r.calls;
    } else {
      assert e.calls == [e.calls[0]];
      RejectionsSnoc(r.calls, e.calls[0]);
    }
    RejectionsSnoc(calls, CallClose);
    assert calls + [] == calls;
  }

  lemma AdvanceCounted(cfg: Config, r: Run, line: string, env: Env, e: Effect)
    requires Counted(cfg, r) && Judged(cfg, r.st, env.session, e)
    ensures Counted(cfg, Advance(cfg, r, line, env, e))
  {
    hide Render, RenderEffect, Reports.Reports, SleepsFor, Rejections, MaxErrorsExceeded;
    AdvanceCalls(cfg, r, line, env, e);
    var all := r.entries + [Entry(line, r.st, env, e)];
    assert all[..|all| - 1] == r.entries;
  }

  lemma StepCounted(cfg: Config, r: Run, event: Event)
    requires Counted(cfg, r)
    ensures Counted(cfg, Step(cfg, r, event))
  {
    hide Advance, Dispatch, ParseCommand, TrimSpace, Judged, Render;
    if r.live {
      match event.input
      case ReadFailed(f) => RejectionsSnoc(r.calls, CallClose);
      case Received(raw) =>
        var line := TrimSpace(raw);
        if line != "" {
          var c := ParseCommand(line);
          DispatchJudged(cfg, r.st, c, event.env);
          AdvanceCounted(cfg, r, line, event.env, Dispatch(cfg, r.st, c, event.env));
        }
    }
  }

  lemma {:induction false} ExecCounted(cfg: Config, r: Run, events: seq<Event>)
    requires Counted(cfg, r)
    ensures Counted(cfg, Exec(cfg, r, events))
    decreases |events|
  {
    hide Step, Counted;
    if events != [] {
      StepCounted(cfg, r, events[0]);
      ExecCounted(cfg, Step(cfg, r, events[0]), events[1..]);
    }
  }

  /** Over every run the error count is exactly the number of the client's faults and, unless they
      are exempt, of the logins refused; so where errors are limited that many refused logins have
      ended the connection. */
  lemma CountsExactly(cfg: Config, isTLS: bool, flushed: bool, events: seq<Event>)
    ensures var r := Exec(cfg, Start(cfg, isTLS, flushed), events);
            && r.st.errorCount == Faults(r.entries) + (if cfg.exemptAuthFailures then 0 else Rejections(r.calls))
            && (!cfg.exemptAuthFailures && cfg.maxErrors > 0 ==>
                  Rejections(r.calls) <= cfg.maxErrors
                  && (Rejections(r.calls) == cfg.maxErrors ==> !r.live))
  {
    hide Rejections, Exec;
    StartCounted(cfg, isTLS, flushed);
    ExecCounted(cfg, Start(cfg, isTLS, flushed), events);
    if cfg.maxErrors > 0 {
      Budget.ErrorBudget(cfg, isTLS, flushed, events);
    }
  }

  lemma StartCounted(cfg: Config, isTLS: bool, flushed: bool)
    ensures Counted(cfg, Start(cfg, isTLS, flushed))
  {
    hide Render;
    assert Rejections([]) == 0;
    RejectionsSnoc([], CallClose);
    assert [] + [CallClose] == [CallClose];
  }

  /** One refused login, however it was tried. */
  predicate Punishes(cfg: Config, r: Run, r': Run, err: SessionError, flushed: bool) {
    var count := r.st.errorCount + if cfg.exemptAuthFailures then 0 else 1;
    && r'.st.errorCount == count && !r'.st.authenticated
    && |r'.slept| >= |r.slept| && r'.slept[..|r.slept|] == r.slept
    && SleepsFor(cfg, count, r'.slept[|r.slept|..])
    && (r'.live <==> !Endings.Closes(err) && flushed && (cfg.maxErrors <= 0 || count < cfg.maxErrors))
    && (r'.farewell == if !Endings.Closes(err) && cfg.maxErrors > 0 && count >= cfg.maxErrors
                       then Status(false, TooManyErrors) else NoResponse)
  }

  lemma AdvancePunishes(cfg: Config, r: Run, line: string, env: Env, e: Effect, err: SessionError)
    requires Delivery.Waiting(cfg, r) && Judged(cfg, r.st, env.session, e) && LoginRejected(e)
    requires !e.next.authenticated && (WantsToEnd(e) <==> Endings.Closes(err))
    ensures Punishes(cfg, r, Advance(cfg, r, line, env, e), err, env.flushed)
  {
    hide Render, RenderEffect, Reports.Reports, SleepsFor, Endings.Closes;
    assert (r.slept + e.delays)[|r.slept|..] == e.delays;
  }

  lemma RejectedEffect(cfg: Config, st: ConnState, env: Env, x: Call, err: SessionError)
    requires x.CallLogin? || x.CallPlain?
    requires !st.authenticated && !st.hijacked && !st.closePending
    ensures var e := Authenticated(cfg, st, Rejected(err), x);
            e.calls == [x] && !e.next.authenticated && (WantsToEnd(e) <==> Endings.Closes(err))
  {
    hide Delay;
  }

  /** A wrong password by PASS: the session is asked once, the error counted unless exempt and slept
      for either way, and the connection ends if the session asks for it or the limit is reached. */
  lemma WrongPassword(cfg: Config, r: Run, password: string, env: Env, err: SessionError)
    requires Delivery.Waiting(cfg, r) && r.st.username != "" && !IsBlank(password)
    requires env.session.login(r.st.username, TrimRight(password)) == Rejected(err)
    ensures Punishes(cfg, r, Step(cfg, r, Event(Received(Delivery.PassLine(password)), env)), err, env.flushed)
  {
    hide ParseCommand, TrimSpace, TrimRight, IsBlank, Authenticated, Advance, Judged, Punishes, Endings.Closes;
    Delivery.PassLineParsed(password);
    var line := TrimSpace(Delivery.PassLine(password));
    var c := ParseCommand(line);
    var e := Dispatch(cfg, r.st, c, env);
    var x := CallLogin(r.st.username, TrimRight(password), r.st.isTLS, Rejected(err));
    assert e == Authenticated(cfg, r.st, Rejected(err), x);
    RejectedEffect(cfg, r.st, env, x, err);
    DispatchJudged(cfg, r.st, c, env);
    AdvancePunishes(cfg, r, line, env, e, err);
  }

  /** And by AUTH PLAIN. */
  lemma WrongPlain(cfg: Config, r: Run, credentials: Sasl.Credentials, env: Env, err: SessionError)
    requires Delivery.Waiting(cfg, r)
    requires env.session.mechanisms.Some? && Contains(env.session.mechanisms.value, "PLAIN")
    requires Base64.IsBytes(Sasl.Payload(credentials)) && Sasl.Deliverable(credentials)
    requires env.session.plain(credentials.identity, credentials.username, credentials.password) == Rejected(err)
    ensures Punishes(cfg, r, Step(cfg, r, Event(Received(Delivery.PlainLine(credentials)), env)), err, env.flushed)
  {
    hide ParseCommand, TrimSpace, Authenticated, Advance, Judged, Punishes, Endings.Closes, Contains, Base64.Encode,
         Sasl.DecodePlain, Sasl.Payload, Base64.IsBytes, Sasl.Deliverable, Delivery.PlainLine;
    Delivery.PlainLineParsed(credentials);
    var line := Delivery.PlainLine(credentials);
    PlainNotEmpty(credentials);
    var c := ParseCommand(line);
    var e := Dispatch(cfg, r.st, c, env);
    var x := CallPlain(credentials.identity, credentials.username, credentials.password, r.st.isTLS, Rejected(err));
    PlainRejected(cfg, r.st, credentials, env, err);
    RejectedEffect(cfg, r.st, env, x, err);
    DispatchJudged(cfg, r.st, c, env);
    AdvancePunishes(cfg, r, line, env, e, err);
  }

  lemma PlainNotEmpty(credentials: Sasl.Credentials)
    requires Base64.IsBytes(Sasl.Payload(credentials))
    ensures Delivery.PlainLine(credentials) != ""
  {
    hide Base64.Encode;
  }

  lemma PlainRejected(cfg: Config, st: ConnState, credentials: Sasl.Credentials, env: Env, err: SessionError)
    requires !st.authenticated && AuthAllowed(cfg, st)
    requires env.session.mechanisms.Some? && Contains(env.session.mechanisms.value, "PLAIN")
    requires Base64.IsBytes(Sasl.Payload(credentials)) && Sasl.Deliverable(credentials)
    requires env.session.plain(credentials.identity, credentials.username, credentials.password) == Rejected(err)
    ensures Dispatch(cfg, st, ParseCommand(Delivery.PlainLine(credentials)), env) ==
            Authenticated(cfg, st, Rejected(err),
                          CallPlain(credentials.identity, credentials.username, credentials.password, st.isTLS,
                                    Rejected(err)))
  {
    hide ParseCommand, Authenticated, Contains, Base64.Encode, Sasl.DecodePlain, Sasl.Deliverable, Delivery.PlainLine;
    Delivery.PlainLineParsed(credentials);
    UpperAlready("PLAIN");
    Delivery.EncodedIsToken(Sasl.Payload(credentials));
    Sasl.PlainRoundTrip(credentials);
  }
}
