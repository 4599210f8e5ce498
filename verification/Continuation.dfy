/** AUTH PLAIN with the response on a line of its own, after the prompt: what is read there counts
    exactly as if it had come with the command. */
module Continuation {
  import opened Lines
  import opened Text
  import opened Sessions
  import opened Protocol
  import opened Requests
  import opened LineReader
  import opened Wire
  import opened Delivery
  import opened Logins
  import Base64
  import Casing
  import Sasl

  const COMMAND := "AUTH PLAIN"

  lemma CommandParsed()
    ensures COMMAND != "" && '\n' !in COMMAND && TrimSpace(COMMAND) == COMMAND
    ensures ParseCommand(COMMAND) == Command(AUTH, ["PLAIN"], "PLAIN")
  {
    hide ParseVerb, ParseCommand, TrimSpace, IsToken;
    LoginVerbs();
    TokensOf("AUTH");
    TokensOf("PLAIN");
    ParseCommandLine("AUTH", ["PLAIN"]);
    assert Join(["PLAIN"]) == "PLAIN";
    assert COMMAND == CommandLine("AUTH", ["PLAIN"]);
  }

  /** The exchange may go on: it is permitted and the session announces PLAIN in some case. */
  ghost predicate MayAuth(cfg: Config, st: ConnState, s: Session) {
    && !st.authenticated && AuthAllowed(cfg, st) && s.mechanisms.Some?
    && exists i :: 0 <= i < |s.mechanisms.value| && SameLetters(s.mechanisms.value[i], "PLAIN")
  }

  /** What a response is worth, by what it decodes to. */
  lemma ResponseExactly(cfg: Config, st: ConnState, response: string, env: Env)
    ensures var e := FinishAuth(cfg, st, response, env);
            && (response == "*" ==> e == Answer(st, Status(false, Aborted), []))
            && (response != "*" && !Base64.Shaped(Sanitize(response)) ==> e == ClientError(cfg, st, BadPlain))
            && (forall c :: response != "*" && Base64.Decode(response) == Some(Sasl.Payload(c))
                            && Sasl.Deliverable(c) ==>
                  var reply := env.session.plain(c.identity, c.username, c.password);
                  e == Authenticated(cfg, st, reply, CallPlain(c.identity, c.username, c.password, st.isTLS, reply)))
            && (response != "*"
                && (forall c :: Base64.Decode(response) == Some(Sasl.Payload(c)) ==> !Sasl.Deliverable(c)) ==>
                  e == ClientError(cfg, st, BadPlain))
  {
    hide Authenticated, ClientError, Base64.Decode, Base64.Shaped, Sasl.Payload, Sasl.Deliverable, Sasl.DecodePlain;
    Base64.DecodesExactly(response);
    forall c
      ensures Sasl.DecodePlain(response) == Some(c) <==>
              Base64.Decode(response) == Some(Sasl.Payload(c)) && Sasl.Deliverable(c)
    {
      Sasl.DecodesExactly(response, c);
    }
  }

  /** With the command or on the next line: the effect is that of the response, the prompt apart. */
  lemma EitherWay(cfg: Config, st: ConnState, env: Env, name: string, response: string)
    requires MayAuth(cfg, st, env.session) && SameLetters(name, "PLAIN")
    ensures HandleAuth(cfg, st, [name, response], env) == FinishAuth(cfg, st, response, env)
    ensures env.continuation.Some? && TrimSpace(env.continuation.value) == response ==>
              HandleAuth(cfg, st, [name], env) == FinishAuth(cfg, st, response, env).(prompted := true)
  {
    hide FinishAuth, SameLetters, Contains, ToUpper, TrimSpace;
    Casing.MechanismInAnyCase(cfg, st, [name], env);
    Casing.MechanismInAnyCase(cfg, st, [name, response], env);
  }

  /** What is not base64 is refused as a fault of the client, without a call, either way. */
  lemma MalformedRefused(cfg: Config, st: ConnState, env: Env, name: string, response: string)
    requires MayAuth(cfg, st, env.session) && SameLetters(name, "PLAIN")
    requires response != "*" && !Base64.Shaped(Sanitize(response))
    ensures HandleAuth(cfg, st, [name, response], env) == ClientError(cfg, st, BadPlain)
    ensures env.continuation.Some? && TrimSpace(env.continuation.value) == response ==>
              HandleAuth(cfg, st, [name], env) == ClientError(cfg, st, BadPlain).(prompted := true)
  {
    hide HandleAuth, FinishAuth, ClientError, MayAuth, SameLetters, TrimSpace, Base64.Shaped;
    EitherWay(cfg, st, env, name, response);
    ResponseExactly(cfg, st, response, env);
  }

  /** From the bytes: the command and the response are two lines of one stream. */
  lemma ContinuationTurn(cfg: Config, b: ByteRun, line: string, more: string, ch: Chance)
    requires Waiting(cfg, b.run) && MayAuth(cfg, b.run.st, ch.session)
    requires '\n' !in line && |line| <= cfg.maxLineLength && |COMMAND| <= cfg.maxLineLength
    requires Stream(b) == COMMAND + CRLF + (line + CRLF + more)
    ensures var env := EnvAt(cfg, ch, line + CRLF + more);
            var e := FinishAuth(cfg, b.run.st, TrimSpace(line), env).(prompted := true);
            var b' := Play(cfg, b, [ch]);
            && env.session == ch.session && env.flushed == ch.flushed
            && b'.run == Advance(cfg, b.run, COMMAND, env, e)
            && (e.next.isTLS == b.run.st.isTLS ==> Stream(b') == more)
  {
    hide ParseCommand, Take, TrimSpace, FinishAuth, HandleAuth, Advance, MayAuth, SameLetters;
    CommandParsed();
    TakesLine(cfg, COMMAND, line + CRLF + more);
    TakesLine(cfg, line, more);
    TurnTook(cfg, b, ch);
    PlayOne(cfg, b, ch);
    var env := EnvAt(cfg, ch, line + CRLF + more);
    SameItself("PLAIN");
    EitherWay(cfg, b.run.st, env, "PLAIN", TrimSpace(line));
    MayDispatch(cfg, b.run.st, env);
    NextState(cfg, b.run, env, FinishAuth(cfg, b.run.st, TrimSpace(line), env).(prompted := true));
  }

  lemma NextState(cfg: Config, r: Run, env: Env, e: Effect)
    ensures Advance(cfg, r, COMMAND, env, e).st == e.next
  {
  }

  lemma SameItself(s: string)
    ensures SameLetters(s, s)
  {
  }

  lemma MayDispatch(cfg: Config, st: ConnState, env: Env)
    requires MayAuth(cfg, st, env.session)
    ensures Dispatch(cfg, st, Command(AUTH, ["PLAIN"], "PLAIN"), env) == HandleAuth(cfg, st, ["PLAIN"], env)
  {
    hide HandleAuth, SameLetters;
  }

  /** Logging in by AUTH PLAIN over two lines: the prompt is sent, deliverable credentials reach the
      session unchanged and once, its decision is answered, and what came behind is still to be
      read; other credentials are a fault of the client. */
  lemma ContinuationFromBytes(cfg: Config, b: ByteRun, c: Sasl.Credentials, more: string, ch: Chance)
    requires Waiting(cfg, b.run) && MayAuth(cfg, b.run.st, ch.session) && Base64.IsBytes(Sasl.Payload(c))
    requires |Base64.Encode(Sasl.Payload(c))| <= cfg.maxLineLength && |COMMAND| <= cfg.maxLineLength
    requires Stream(b) == COMMAND + CRLF + (Base64.Encode(Sasl.Payload(c)) + CRLF + more)
    ensures var b' := Play(cfg, b, [ch]);
            var reply := ch.session.plain(c.identity, c.username, c.password);
            && Stream(b') == more
            && (Sasl.Deliverable(c) ==>
                  && |b'.run.calls| > |b.run.calls|
                  && b'.run.calls[|b.run.calls|]
                     == CallPlain(c.identity, c.username, c.password, b.run.st.isTLS, reply)
                  && b'.run.out == b.run.out + ("+ \r\n" + Render(AnswerTo(cfg, reply)) + Render(b'.run.farewell))
                  && (reply.Accepted? ==> b'.run.farewell == NoResponse && b'.run.st.authenticated))
            && (!Sasl.Deliverable(c) ==>
                  b'.run.out == b.run.out + ("+ \r\n" + Render(Status(false, BadPlain)) + Render(b'.run.farewell))
                  && b'.run.calls in {b.run.calls, b.run.calls + [CallClose]})
  {
    hide Render, TrimSpace, FinishAuth, Advance, MayAuth, Base64.Encode, Sasl.Payload, Base64.IsBytes, Base64.Decode,
         Sasl.Deliverable, Play, Base64.Shaped;
    var enc := Base64.Encode(Sasl.Payload(c));
    var env := EnvAt(cfg, ch, enc + CRLF + more);
    EncodedAlone(c);
    ContinuationTurn(cfg, b, enc, more, ch);
    FinishDelivered(cfg, b.run.st, c, env);
    PromptedTurn(cfg, b.run, env, FinishAuth(cfg, b.run.st, enc, env));
  }

  lemma EncodedAlone(c: Sasl.Credentials)
    requires Base64.IsBytes(Sasl.Payload(c))
    ensures var enc := Base64.Encode(Sasl.Payload(c)); '\n' !in enc && TrimSpace(enc) == enc && enc != "*"
  {
    hide Base64.Encode;
    var enc := Base64.Encode(Sasl.Payload(c));
    EncodedIsToken(Sasl.Payload(c));
    assert IsSpace('\n');
    TokenEnds(enc);
    TrimmedAlready(enc);
  }

  /** What the exchange does with credentials a client encoded. */
  lemma FinishDelivered(cfg: Config, st: ConnState, c: Sasl.Credentials, env: Env)
    requires Base64.IsBytes(Sasl.Payload(c)) && Base64.Encode(Sasl.Payload(c)) != "*"
    requires !st.authenticated && !st.hijacked && !st.closePending
    ensures var e := FinishAuth(cfg, st, Base64.Encode(Sasl.Payload(c)), env);
            var reply := env.session.plain(c.identity, c.username, c.password);
            && !e.quit && e.next.isTLS == st.isTLS
            && (if Sasl.Deliverable(c) then
                  e.calls == [CallPlain(c.identity, c.username, c.password, st.isTLS, reply)]
                  && e.response == AnswerTo(cfg, reply)
                  && (reply.Accepted? ==> e.next == st.(authenticated := true))
                else e == ClientError(cfg, st, BadPlain))
  {
    hide Base64.Encode, Sasl.DecodePlain, Sasl.Deliverable;
    Sasl.PlainRoundTrip(c);
  }

  /** A turn that prompted. */
  lemma PromptedTurn(cfg: Config, r: Run, env: Env, e: Effect)
    requires Waiting(cfg, r)
    ensures var r' := Advance(cfg, r, COMMAND, env, e.(prompted := true));
            && r'.st == e.next && r'.slept == r.slept + e.delays
            && r'.out == r.out + ("+ \r\n" + Render(e.response) + Render(r'.farewell))
            && (e.calls == [] ==> r'.calls == if r'.live then r.calls else r.calls + [CallClose])
            && (|e.calls| == 1 ==> |r'.calls| > |r.calls| && r'.calls[|r.calls|] == e.calls[0])
            && (e.next.errorCount == r.st.errorCount ==> r'.farewell == NoResponse)
            && (e.next == r.st && !e.quit && env.flushed ==> r'.live)
  {
    hide Render;
    assert r.calls + [] + [] == r.calls && r.calls + [] + [CallClose] == r.calls + [CallClose];
  }

  /** A "*" aborts the exchange: no call, no error, no sleep, and the connection goes on. */
  lemma AbortFromBytes(cfg: Config, b: ByteRun, more: string, ch: Chance)
    requires Waiting(cfg, b.run) && MayAuth(cfg, b.run.st, ch.session) && ch.flushed
    requires |COMMAND| <= cfg.maxLineLength
    requires Stream(b) == COMMAND + CRLF + ("*" + CRLF + more)
    ensures var b' := Play(cfg, b, [ch]);
            && b'.run.st == b.run.st && b'.run.live && b'.run.slept == b.run.slept && b'.run.calls == b.run.calls
            && b'.run.out == b.run.out + ("+ \r\n" + Render(Status(false, Aborted)) + Render(NoResponse))
            && Stream(b') == more
  {
    hide Render, FinishAuth, Advance, MayAuth, Play, Base64.Decode, Base64.Shaped, Sasl.Payload, Sasl.Deliverable;
    var env := EnvAt(cfg, ch, "*" + CRLF + more);
    TrimmedAlready("*");
    ContinuationTurn(cfg, b, "*", more, ch);
    ResponseExactly(cfg, b.run.st, "*", env);
    PromptedTurn(cfg, b.run, env, FinishAuth(cfg, b.run.st, "*", env));
    assert b.run.slept + [] == b.run.slept;
  }
}
