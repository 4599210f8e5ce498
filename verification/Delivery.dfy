/** Credentials from the client's call to the session: through the command line, the server's
    line reader, trimming, splitting and decoding. */
module Delivery {
  import opened Lines
  import opened Text
  import opened Protocol
  import opened Requests
  import Base64
  import Sasl

  // ----- USER and PASS -----

  /** The line of a USER command. */
  function UserLine(username: string): string {
    "USER " + username
  }

  function PassLine(password: string): string {
    "PASS " + password
  }

  lemma UserToken()
    ensures IsToken("USER") && NoLower("USER")
  {
  }

  lemma UserLineParsed(username: string)
    requires IsToken(username)
    ensures TrimSpace(UserLine(username)) == UserLine(username)
    ensures ParseCommand(UserLine(username)) == Command(USER, [username], username)
  {
    hide ParseVerb, ParseCommand, TrimSpace, IsToken;
    UserToken();
    LoginVerbs();
    ParseCommandLine("USER", [username]);
    assert UserLine(username) == CommandLine("USER", [username]);
  }

  lemma TrimPass(password: string)
    ensures TrimSpace(PassLine(password)) == if TrimRight(password) == "" then "PASS" else "PASS " + TrimRight(password)
  {
    var line := PassLine(password);
    assert line[0] == 'P';
    assert TrimLeft(line) == line;
    TrimRightAfter("PASS ", password);
    if TrimRight(password) == "" {
      assert "PASS "[..4] == "PASS";
      assert TrimRight("PASS ") == TrimRight("PASS");
    }
  }

  /** Of a password only trailing whitespace is lost: leading and inner spaces and tabs, and
      CRs, survive; an all-blank password leaves nothing. */
  lemma PassLineParsed(password: string)
    ensures var line := TrimSpace(PassLine(password));
            && line != ""
            && ParseCommand(line).verb == PASS
            && ParseCommand(line).raw == TrimRight(password)
            && (TrimRight(password) == "" <==> IsBlank(password))
  {
    hide ParseVerb, TrimSpace, TrimRight, IsBlank, SplitCommand;
    LoginVerbs();
    TrimPass(password);
    TrimRightBlank(password);
    UpperAlready("PASS");
    SplitCommandOf("PASS", TrimRight(password));
    assert "PASS" + " " + TrimRight(password) == "PASS " + TrimRight(password);
  }

  /** A client's USER and PASS calls, written to the wire with anything behind them, are read as
      these two lines when they are within the server's line limit. */
  lemma UserPassOnWire(max: int, username: string, password: string, rest: string)
    requires '\n' !in username && '\n' !in password
    requires |UserLine(username)| <= max && |PassLine(password)| <= max
    ensures var wire := UserLine(username) + CRLF + (PassLine(password) + CRLF + rest);
            && NextLine(max, wire) == Line(UserLine(username), PassLine(password) + CRLF + rest)
            && NextLine(max, PassLine(password) + CRLF + rest) == Line(PassLine(password), rest)
  {
    NextLineBack(max, UserLine(username), PassLine(password) + CRLF + rest);
    NextLineBack(max, PassLine(password), rest);
  }

  predicate Waiting(cfg: Config, r: Run) {
    r.live && !r.st.authenticated && !r.st.hijacked && !r.st.closePending
    && AuthAllowed(cfg, r.st) && !MaxErrorsExceeded(cfg, r.st)
  }

  /** USER with a token free of control characters is accepted and remembered. */
  lemma UserAccepted(cfg: Config, r: Run, username: string, env: Env)
    requires Waiting(cfg, r) && IsToken(username) && !ContainsCTL(username) && env.flushed
    ensures var r' := Step(cfg, r, Event(Received(UserLine(username)), env));
            && r'.st == r.st.(username := username)
            && Waiting(cfg, r') && r'.calls == r.calls
  {
    hide ParseCommand, MessageOf, Render, RenderEffect;
    UserLineParsed(username);
    assert UserLine(username)[0] == 'U';
    assert r.calls + [] + [] == r.calls;
  }

  /** PASS calls Login with the remembered username and the password as it arrived. */
  lemma PassCallsLogin(cfg: Config, r: Run, password: string, env: Env)
    requires Waiting(cfg, r) && r.st.username != ""
    ensures var r' := Step(cfg, r, Event(Received(PassLine(password)), env));
            var reply := env.session.login(r.st.username, TrimRight(password));
            if IsBlank(password) then
              |r'.entries| == |r.entries| + 1
              && r'.entries[|r.entries|].effect == ClientError(cfg, r.st, PassSyntax)
            else
              |r'.calls| > |r.calls|
              && r'.calls[|r.calls|] == CallLogin(r.st.username, TrimRight(password), r.st.isTLS, reply)
              && (reply.Accepted? ==> r'.st == r.st.(authenticated := true))
  {
    hide ParseCommand, MessageOf, Render, RenderEffect;
    PassLineParsed(password);
  }

  /** USER/PASS delivery: where authentication is permitted, Login receives exactly the
      username of the USER call and the password of the PASS call less trailing whitespace. */
  lemma UserPassDelivered(cfg: Config, r: Run, username: string, password: string, env1: Env, env2: Env)
    requires Waiting(cfg, r) && env1.flushed
    requires IsToken(username) && !ContainsCTL(username) && !IsBlank(password)
    ensures var r1 := Step(cfg, r, Event(Received(UserLine(username)), env1));
            var r2 := Step(cfg, r1, Event(Received(PassLine(password)), env2));
            && |r2.calls| > |r.calls|
            && r2.calls[|r.calls|] == CallLogin(username, TrimRight(password), r.st.isTLS,
                                                env2.session.login(username, TrimRight(password)))
  {
    hide Step;
    UserAccepted(cfg, r, username, env1);
    PassCallsLogin(cfg, Step(cfg, r, Event(Received(UserLine(username)), env1)), password, env2);
  }

  // ----- AUTH PLAIN -----

  function PlainLine(c: Sasl.Credentials): string
    requires Base64.IsBytes(Sasl.Payload(c))
  {
    "AUTH PLAIN " + Base64.Encode(Sasl.Payload(c))
  }

  lemma EncodedIsToken(s: string)
    requires Base64.IsBytes(s) && s != ""
    ensures IsToken(Base64.Encode(s)) && Base64.Encode(s) != "*"
  {
    Base64.EncodedChars(s);
    assert "*"[0] in "*";
  }

  lemma PayloadNotEmpty(c: Sasl.Credentials)
    ensures Sasl.Payload(c) != ""
  {
  }

  lemma TokensOf(word: string)
    requires word == "AUTH" || word == "PLAIN"
    ensures IsToken(word) && NoLower(word)
  {
  }

  lemma PlainLineParsed(c: Sasl.Credentials)
    requires Base64.IsBytes(Sasl.Payload(c))
    ensures TrimSpace(PlainLine(c)) == PlainLine(c)
    ensures ParseCommand(PlainLine(c)).verb == AUTH
    ensures ParseCommand(PlainLine(c)).args == ["PLAIN", Base64.Encode(Sasl.Payload(c))]
  {
    hide ParseVerb, Base64.Encode, ParseCommand, TrimSpace, IsToken, Sasl.Payload;
    PayloadNotEmpty(c);
    TokensOf("AUTH");
    TokensOf("PLAIN");
    var enc := Base64.Encode(Sasl.Payload(c));
    LoginVerbs();
    EncodedIsToken(Sasl.Payload(c));
    ParseCommandLine("AUTH", ["PLAIN", enc]);
    assert ["PLAIN", enc][1..] == [enc];
    assert Join([enc]) == enc;
    assert PlainLine(c) == CommandLine("AUTH", ["PLAIN", enc]);
  }

  /** SASL PLAIN delivery: from a line built by the client the server recovers the credentials
      and passes exactly them to the session when the identity and username are free of control
      characters and the password of NUL; all others are refused as a client error. */
  lemma PlainDelivered(cfg: Config, st: ConnState, c: Sasl.Credentials, env: Env)
    requires !st.authenticated && AuthAllowed(cfg, st)
    requires env.session.mechanisms.Some? && Contains(env.session.mechanisms.value, "PLAIN")
    requires Base64.IsBytes(Sasl.Payload(c))
    ensures var e := Dispatch(cfg, st, ParseCommand(TrimSpace(PlainLine(c))), env);
            if Sasl.Deliverable(c) then
              var reply := env.session.plain(c.identity, c.username, c.password);
              e.calls == [CallPlain(c.identity, c.username, c.password, st.isTLS, reply)]
              && (reply.Accepted? ==> e.next.authenticated && e.response == Status(true, LoggedIn))
            else e == ClientError(cfg, st, BadPlain)
  {
    hide ParseCommand, Base64.Encode, Sasl.DecodePlain, Sasl.Deliverable, Contains, PlainLine;
    PlainLineParsed(c);
    UpperAlready("PLAIN");
    EncodedIsToken(Sasl.Payload(c));
    Sasl.PlainRoundTrip(c);
  }

  /** On the wire: the line is read back when it is within the limit. */
  lemma PlainOnWire(max: int, c: Sasl.Credentials, rest: string)
    requires Base64.IsBytes(Sasl.Payload(c)) && |PlainLine(c)| <= max
    ensures NextLine(max, PlainLine(c) + CRLF + rest) == Line(PlainLine(c), rest)
  {
    Base64.EncodedChars(Sasl.Payload(c));
    NextLineBack(max, PlainLine(c), rest);
  }
}
