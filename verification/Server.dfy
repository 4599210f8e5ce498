/** The server's connection as the program runs it: an object whose handlers update its
    fields and write to its writer. Every handler is proved against the specification of the
    command it serves, and the command loop against the specification of a run. */
module Server {
  import opened Lines
  import opened Text
  import opened Numbers
  import opened Sessions
  import opened Protocol
  import opened DotStuffWriters
  import opened LineReader
  import opened Wire
  import DotStuff
  import Sasl

  class Conn {
    const cfg: Config
    const secure: string
    var reader: BufReader
    var writer: Sink
    var authenticated: bool
    var username: string
    var rawArg: string
    var errorCount: nat
    var isTLS: bool
    var hijacked: bool
    var closePending: bool
    ghost var before: string
    ghost var heard: seq<Heard>
    ghost var calls: seq<Call>
    ghost var slept: seq<int>

    /** `plain` and `secure` are the bytes the client will send in plaintext and over TLS. */
    constructor (cfg: Config, isTLS: bool, plain: string, secure: string)
      requires cfg.bufferSize >= 16
      ensures this.cfg == cfg && this.secure == secure && Ready() && fresh(writer) && fresh(reader)
      ensures State() == ConnState(false, "", 0, isTLS, false, false)
      ensures reader.rest == if isTLS then secure else plain
      ensures Out() == "" && heard == [] && calls == [] && slept == []
    {
      this.cfg, this.isTLS, this.secure := cfg, isTLS, secure;
      reader := new BufReader(if isTLS then secure else plain, cfg.bufferSize);
      writer := new Sink(None);
      authenticated, username, rawArg, errorCount := false, "", "", 0;
      hijacked, closePending := false, false;
      before, heard, calls, slept := "", [], [], [];
    }

    /** Writes go to a buffer; a failing connection shows when it is flushed. */
    predicate Ready()
      reads this, writer
    {
      writer.room.None? && reader.size == cfg.bufferSize >= 16
    }

    /** All bytes written, on the connection's first layer and after an upgrade. */
    ghost function Out(): string
      reads this, writer
    {
      before + writer.out
    }

    ghost function State(): ConnState
      reads this
    {
      ConnState(authenticated, username, errorCount, isTLS, hijacked, closePending)
    }

    /** The environment of a command behind which the reader stands now. */
    ghost function At(ch: Chance): Env
      reads this, reader
    {
      EnvAt(cfg, ch, reader.rest)
    }

    /** What has been done since the old state is the effect `e`. */
    twostate predicate Effected(e: Effect)
      reads this, writer
    {
      && Ready()
      && State() == e.next
      && Out() == old(Out()) + RenderEffect(e)
      && calls == old(calls) + e.calls
      && slept == old(slept) + e.delays
    }

    /** Likewise by a command that takes no further line and stays on its layer. */
    twostate predicate Did(e: Effect)
      reads this, writer
    {
      Effected(e) && !e.prompted && isTLS == old(isTLS) && Stays()
    }

    twostate predicate Stays()
      reads this
    {
      reader == old(reader) && writer == old(writer) && before == old(before) && heard == old(heard)
    }

    twostate predicate Upgraded(e: Effect)
      reads this, writer, reader
    {
      && fresh(reader) && reader.rest == secure
      && fresh(writer) && before == old(Out()) + RenderEffect(e)
    }

    /** The general case: a prompt is followed by a line off the same reader, and an upgrade by a
        new reader at the first byte of the TLS stream and a new writer. */
    twostate predicate Went(e: Effect)
      reads this, writer, reader
    {
      && Effected(e)
      && heard == old(heard) + OnLayer(Further(cfg, e.prompted, old(reader.rest)).0, old(isTLS))
      && (isTLS != old(isTLS) ==> isTLS && Upgraded(e))
      && (isTLS == old(isTLS) ==> reader == old(reader) && writer == old(writer) && before == old(before))
      && (isTLS == old(isTLS) ==>
            reader.rest == Further(cfg, e.prompted, old(reader.rest)).1 || closePending)
    }

    // ----- Reading -----

    method ReadLine() returns (line: string, err: Option<ReadError>)
      requires Ready()
      modifies reader, this`heard
      ensures match old(Take(cfg, reader.rest))
              case Took(text, rest) =>
                err == None && line == text && reader.rest == rest && heard == old(heard) + [Heard(text, isTLS)]
              case NoLine(e) => err == Some(e) && heard == old(heard)
    {
      var text, e, _ := ServerReadLine(reader, cfg.maxLineLength);
      line, err := text, e;
      if err.None? {
        heard := heard + [Heard(line, isTLS)];
      }
    }

    // ----- Writing -----

    method Put(s: string)
      requires Ready()
      modifies writer
      ensures Ready() && Out() == old(Out()) + s
    {
      var n, ok := writer.Write(s);
    }

    method Okay(msg: string)
      requires Ready()
      modifies writer
      ensures Ready() && Out() == old(Out()) + StatusLine(true, msg) + CRLF
    {
      if msg == "" {
        Put("+OK\r\n");
      } else {
        Put("+OK ");
        Put(Sanitize(msg));
        Put("\r\n");
      }
    }

    method Fail(msg: string)
      requires Ready()
      modifies writer
      ensures Ready() && Out() == old(Out()) + StatusLine(false, msg) + CRLF
    {
      if msg == "" {
        Put("-ERR\r\n");
      } else {
        Put("-ERR ");
        Put(Sanitize(msg));
        Put("\r\n");
      }
    }

    // ----- Errors -----

    /** Sleeps for the back-off of the current error count. */
    method ApplyErrorDelay()
      modifies this`slept
      ensures slept == old(slept) + Delay(cfg, errorCount)
    {
      if cfg.errorDelay <= 0 {
        assert slept + [] == slept;
        return;
      }
      var d := errorCount * cfg.errorDelay;
      if cfg.maxErrorDelay > 0 && d > cfg.maxErrorDelay {
        d := cfg.maxErrorDelay;
      }
      slept := slept + [d];
    }

    method RefuseClient(n: Notice)
      requires Ready()
      modifies this, writer
      ensures Did(ClientError(cfg, old(State()), n))
      ensures rawArg == old(rawArg)
    {
      hide MessageOf, StatusLine;
      errorCount := errorCount + 1;
      ApplyErrorDelay();
      Fail(MessageOf(n));
      assert calls + [] == calls;
    }

    method RefuseSession(e: SessionError)
      requires Ready()
      modifies this, writer
      ensures Did(SessionFailure(cfg, old(State()), e, []))
    {
      hide MessageOf, StatusLine;
      Fail(MessageOf(OfSession(e, cfg.strictSessionErrors)));
      if AsksToClose(e) {
        closePending := true;
      }
      assert calls + [] == calls && slept + [] == slept;
    }

    /** Answers with a positive status line, after the session calls `made`. */
    method Confirm(n: Notice, ghost made: seq<Call>)
      requires Ready()
      modifies this`calls, writer
      ensures Did(Answer(old(State()), Status(true, n), made))
    {
      hide MessageOf, StatusLine;
      Okay(MessageOf(n));
      calls := calls + made;
      assert slept + [] == slept;
    }

    /** Answers an error of the session, after the call `x` that failed. */
    method RefuseCall(e: SessionError, ghost x: Call)
      requires Ready()
      modifies this, writer
      ensures Did(SessionFailure(cfg, old(State()), e, [x]))
    {
      hide MessageOf, StatusLine;
      RefuseSession(e);
      calls := calls + [x];
    }

    // ----- AUTHORIZATION -----

    method WriteCap(name: string, params: seq<string>)
      requires Ready()
      modifies writer
      ensures Ready() && Out() == old(Out()) + Block(CapLine(cfg, name, params))
    {
      if Contains(cfg.suppressedCaps, name) {
        assert Out() + "" == Out();
        return;
      }
      Put(name);
      if |params| > 0 {
        Put(" ");
        Put(Join(params));
      }
      Put("\r\n");
      assert Block(CapLine(cfg, name, params)) == CapLine(cfg, name, params)[0] + CRLF + "";
    }

    /** Writes one more capability line, if it is due, after those of `done`. */
    method Advertise(due: bool, name: string, params: seq<string>, ghost base: string, ghost done: seq<Capability>)
      returns (ghost next: seq<Capability>)
      requires Ready() && Out() == base + Block(CapLines(cfg, done))
      modifies writer
      ensures Ready() && next == done + CapIf(due, name, params)
      ensures Out() == base + Block(CapLines(cfg, next))
    {
      hide CapLine;
      next := done + CapIf(due, name, params);
      if due {
        WriteCap(name, params);
        CapLinesSnoc(cfg, done, Capability(name, params));
        BlockConcat(CapLines(cfg, done), CapLine(cfg, name, params));
      } else {
        assert next == done;
      }
    }

    method AdvertiseAll(caps: seq<Capability>, ghost base: string, ghost done: seq<Capability>)
      requires Ready() && Out() == base + Block(CapLines(cfg, done))
      modifies writer
      ensures Ready() && Out() == base + Block(CapLines(cfg, done + caps))
    {
      hide CapLines;
      var i := 0;
      assert done + caps[..0] == done;
      while i < |caps|
        invariant i <= |caps| && Ready()
        invariant Out() == base + Block(CapLines(cfg, done + caps[..i]))
      {
        ghost var next := Advertise(true, caps[i].name, caps[i].params, base, done + caps[..i]);
        assert next == done + caps[..i + 1];
        i := i + 1;
      }
      assert caps[..i] == caps;
    }

    method AdvertiseBasic(authAllowed: bool, ghost base: string) returns (ghost done: seq<Capability>)
      requires Ready() && Out() == base
      modifies writer
      ensures Ready() && Out() == base + Block(CapLines(cfg, done))
      ensures done == Basic(authAllowed)
    {
      hide CapLines, CapIf;
      NoCapLines(cfg);
      done := Advertise(true, "TOP", [], base, []);
      assert done == CapIf(true, "TOP", []);
      done := Advertise(true, "UIDL", [], base, done);
      done := Advertise(authAllowed, "USER", [], base, done);
      done := Advertise(true, "RESP-CODES", [], base, done);
      done := Advertise(true, "PIPELINING", [], base, done);
    }

    method AdvertiseExtensions(authAllowed: bool, s: Session, ghost base: string, ghost basic: seq<Capability>)
      requires Ready() && Out() == base + Block(CapLines(cfg, basic))
      modifies writer
      ensures Ready()
      ensures Out() == base + Block(CapLines(cfg, basic + Extensions(authAllowed, cfg.tlsAvailable && !isTLS, s)))
    {
      hide CapLines, CapIf, Block;
      var mechs := if s.mechanisms.Some? then s.mechanisms.value else [];
      ghost var done := Advertise(cfg.tlsAvailable && !isTLS, "STLS", [], base, basic);
      done := Advertise(authAllowed && |mechs| > 0, "SASL", mechs, base, done);
      done := Advertise(s.lang.Some?, "LANG", [], base, done);
      done := Advertise(s.utf8.Some?, "UTF8", [], base, done);
      Reassociate(basic, CapIf(cfg.tlsAvailable && !isTLS, "STLS", []),
                  CapIf(authAllowed && |mechs| > 0, "SASL", mechs),
                  CapIf(s.lang.Some?, "LANG", []), CapIf(s.utf8.Some?, "UTF8", []));
    }

    method HandleCapa(ch: Chance)
      requires Ready()
      modifies writer
      ensures Did(Protocol.HandleCapa(cfg, old(State()), old(At(ch))))
    {
      hide MessageOf, CapLines, StatusLine, Basic, Extensions, Block, RenderEffect;
      var authAllowed := cfg.insecureAuth || isTLS;
      Okay(MessageOf(CapabilitiesFollow));
      ghost var base := Out();
      ghost var done := AdvertiseBasic(authAllowed, base);
      AdvertiseExtensions(authAllowed, ch.session, base, done);
      done := done + Extensions(authAllowed, cfg.tlsAvailable && !isTLS, ch.session);
      AdvertiseAll(cfg.caps, base, done);
      Put(".\r\n");
      ListingWritten(old(Out()), Protocol.HandleCapa(cfg, State(), At(ch)));
      assert calls + [] == calls && slept + [] == slept;
    }

    method HandleUser(args: seq<string>)
      requires Ready()
      modifies this, writer
      ensures Did(Protocol.HandleUser(cfg, old(State()), args))
    {
      hide MessageOf, StatusLine;
      if !(cfg.insecureAuth || isTLS) {
        RefuseClient(TlsFirst);
        return;
      }
      if |args| < 1 {
        RefuseClient(UserSyntax);
        return;
      }
      if ContainsCTL(args[0]) {
        RefuseClient(BadUsername);
        return;
      }
      username := args[0];
      Confirm(Done, []);
    }

    /** What follows a login call: a refusal is counted unless exempt and slept for; a session
        that took the connection over is not answered for. */
    method Conclude(reply: AuthReply, ghost x: Call)
      requires Ready()
      modifies this, writer
      ensures Did(Authenticated(cfg, old(State()), reply, x))
    {
      hide MessageOf, StatusLine;
      match reply
      case Rejected(e) => RefuseLogin(e, x);
      case Hijacked =>
        hijacked := true;
        calls := calls + [x];
        assert Out() + "" == Out() && slept + [] == slept;
      case Accepted =>
        authenticated := true;
        Confirm(LoggedIn, [x]);
    }

    /** A refused login is counted unless exempt, and slept for either way. */
    method RefuseLogin(e: SessionError, ghost x: Call)
      requires Ready()
      modifies this, writer
      ensures Did(Authenticated(cfg, old(State()), Rejected(e), x))
    {
      hide MessageOf, StatusLine, Delay;
      if !cfg.exemptAuthFailures {
        errorCount := errorCount + 1;
      }
      ApplyErrorDelay();
      RefuseCall(e, x);
      SameOutput(Authenticated(cfg, old(State()), Rejected(e), x), SessionFailure(cfg, old(State()), e, [x]));
    }

    /** The password is the raw remainder of the line kept for the current command. */
    method HandlePass(ch: Chance)
      requires Ready()
      modifies this, writer
      ensures Did(Protocol.HandlePass(cfg, old(State()), old(rawArg), old(At(ch))))
    {
      hide MessageOf, StatusLine, Authenticated;
      if !(cfg.insecureAuth || isTLS) {
        RefuseClient(TlsFirst);
        return;
      }
      if username == "" {
        RefuseClient(UserFirst);
        return;
      }
      var password := rawArg;
      if password == "" {
        RefuseClient(PassSyntax);
        return;
      }
      var reply := ch.session.login(username, password);
      Conclude(reply, CallLogin(username, password, isTLS, reply));
    }

    method FinishAuth(encoded: string, ch: Chance, ghost env: Env)
      requires Ready() && env.session == ch.session
      modifies this, writer
      ensures Did(Protocol.FinishAuth(cfg, old(State()), encoded, env))
    {
      hide MessageOf, StatusLine, Authenticated, Sasl.DecodePlain;
      if encoded == "*" {
        Fail(MessageOf(Aborted));
        assert calls + [] == calls && slept + [] == slept;
        return;
      }
      var decoded := Sasl.Decode(encoded);
      match decoded
      case None => RefuseClient(BadPlain);
      case Some(c) =>
        var reply := ch.session.plain(c.identity, c.username, c.password);
        Conclude(reply, CallPlain(c.identity, c.username, c.password, isTLS, reply));
    }

    method WriteLines(lines: seq<string>)
      requires Ready()
      modifies writer
      ensures Ready() && Out() == old(Out()) + Block(lines)
    {
      var i := 0;
      assert Block(lines[..0]) == "";
      assert Out() + "" == Out();
      while i < |lines|
        invariant i <= |lines| && Ready()
        invariant Out() == old(Out()) + Block(lines[..i])
      {
        Put(lines[i]);
        Put("\r\n");
        BlockSnoc(lines, i);
        i := i + 1;
      }
      assert lines[..i] == lines;
    }

    method HandleAuth(args: seq<string>, ch: Chance)
      requires Ready()
      modifies this, writer, reader
      ensures isTLS == old(isTLS) && Went(Protocol.HandleAuth(cfg, old(State()), args, old(At(ch))))
    {
      hide MessageOf, StatusLine, Protocol.FinishAuth, Block, Take, RenderEffect;
      ghost var env := At(ch);
      NothingFurther(cfg, reader.rest, heard, isTLS);
      if !(cfg.insecureAuth || isTLS) {
        RefuseClient(TlsFirst);
        return;
      }
      if ch.session.mechanisms.None? {
        RefuseClient(NoSasl);
        return;
      }
      if |args| < 1 {
        ListMechanisms(ch.session.mechanisms.value);
        return;
      }
      if ToUpper(args[0]) != "PLAIN" || !Contains(ch.session.mechanisms.value, "PLAIN") {
        RefuseClient(BadMechanism);
        return;
      }
      if |args| > 1 {
        FinishAuth(args[1], ch, env);
        return;
      }
      ContinueAuth(ch, env);
    }

    method ListMechanisms(mechanisms: seq<string>)
      requires Ready()
      modifies writer
      ensures Did(Answer(old(State()), Listing(Mechanisms, mechanisms), []))
    {
      hide MessageOf, StatusLine, Block;
      Okay(MessageOf(Mechanisms));
      WriteLines(mechanisms);
      Put(".\r\n");
      ListingWritten(old(Out()), Answer(State(), Listing(Mechanisms, mechanisms), []));
      assert calls + [] == calls && slept + [] == slept;
    }

    /** Prompts, and takes the response off the reader as the next line. */
    method ContinueAuth(ch: Chance, ghost env: Env)
      requires Ready() && env == At(ch)
      modifies this, writer, reader
      ensures isTLS == old(isTLS) && Went(Prompted(cfg, old(State()), env))
    {
      hide MessageOf, StatusLine, Protocol.FinishAuth, Take, RenderEffect;
      Put("+ \r\n");
      var line, err := ReadLine();
      if err.Some? {
        closePending := true;
        PromptOnly(Prompted(cfg, old(State()), env));
        assert calls + [] == calls && slept + [] == slept && heard + [] == heard;
        return;
      }
      FinishAuth(TrimSpace(line), ch, env);
      PromptWritten(old(Out()), cfg, old(State()), TrimSpace(line), env);
    }

    method HandleSTLS(ch: Chance)
      requires Ready()
      modifies this, writer
      ensures Went(Protocol.HandleSTLS(cfg, old(State()), old(At(ch))))
    {
      hide MessageOf, StatusLine, Take, RenderEffect;
      NothingFurther(cfg, reader.rest, heard, isTLS);
      if isTLS {
        RefuseClient(AlreadyTLS);
        return;
      }
      if !cfg.tlsAvailable {
        RefuseClient(NoTLS);
        return;
      }
      if Buffered(ch.arrived, reader.rest) > 0 {
        RefuseClient(PipelinedAfterSTLS);
        closePending := true;
        SameOutput(Protocol.HandleSTLS(cfg, old(State()), old(At(ch))),
                   ClientError(cfg, old(State()), PipelinedAfterSTLS));
        return;
      }
      Confirm(BeginTLS, []);
      SameOutput(Protocol.HandleSTLS(cfg, old(State()), old(At(ch))), Answer(old(State()), Status(true, BeginTLS), []));
      if !ch.handshake {
        closePending := true;
        return;
      }
      Upgrade();
    }

    /** The connection goes on over TLS: with a new reader at the first byte of the TLS stream, a
        new writer, and without the username given in plaintext. */
    method Upgrade()
      requires Ready()
      modifies this
      ensures Ready() && fresh(reader) && reader.rest == secure && fresh(writer)
      ensures before == old(Out()) && Out() == old(Out())
      ensures State() == old(State()).(isTLS := true, username := "")
      ensures heard == old(heard) && calls == old(calls) && slept == old(slept)
    {
      before := Out();
      reader := new BufReader(secure, cfg.bufferSize);
      writer := new Sink(None);
      assert before + "" == before;
      isTLS := true;
      username := "";
    }

    // ----- TRANSACTION -----

    method ParseMsgNum(args: seq<string>) returns (r: Result<nat, Notice>)
      ensures r == Protocol.ParseMsgNum(args)
    {
      if |args| < 1 {
        return Bad(NumberRequired);
      }
      var n, _ := ParseInt(args[0]);
      if n.None? || n.value < 1 {
        return Bad(BadNumber);
      }
      r := Good(n.value as nat);
    }

    method ParseOptionalMsgNum(args: seq<string>) returns (r: Result<nat, Notice>)
      ensures r == Protocol.ParseOptionalMsgNum(args)
    {
      if |args| == 0 {
        return Good(0);
      }
      r := ParseMsgNum(args);
    }

    method WriteListing(n: Notice, lines: seq<string>, ghost x: Call)
      requires Ready()
      modifies this`calls, writer
      ensures Did(Answer(old(State()), Listing(n, lines), [x]))
    {
      hide MessageOf, StatusLine, Block;
      Okay(MessageOf(n));
      WriteLines(lines);
      Put(".\r\n");
      calls := calls + [x];
      ListingWritten(old(Out()), Answer(State(), Listing(n, lines), [x]));
      assert slept + [] == slept;
    }

    method HandleStat(ch: Chance)
      requires Ready()
      modifies this, writer
      ensures Did(Protocol.HandleStat(cfg, old(State()), old(At(ch))))
    {
      match ch.session.stat
      case Err(e) => RefuseCall(e, CallStat);
      case Ok(v) => Confirm(Totals(v.0, v.1), [CallStat]);
    }

    method HandleList(args: seq<string>, ch: Chance)
      requires Ready()
      modifies this, writer
      ensures Did(Protocol.HandleList(cfg, old(State()), args, old(At(ch))))
    {
      hide Protocol.ParseOptionalMsgNum, RenderEffect;
      var parsed := ParseOptionalMsgNum(args);
      match parsed
      case Bad(n) => RefuseClient(n);
      case Good(num) =>
        match ch.session.list(num)
        case Err(e) => RefuseCall(e, CallList(num));
        case Ok(items) =>
          if num > 0 {
            if |items| != 1 {
              RefuseCall(NO_SUCH_MESSAGE, CallList(num));
              return;
            }
            Confirm(OneInfo(items[0]), [CallList(num)]);
            return;
          }
          WriteListing(MessageCount(|items|), ListLines(items), CallList(num));
    }

    method HandleUidl(args: seq<string>, ch: Chance)
      requires Ready()
      modifies this, writer
      ensures Did(Protocol.HandleUidl(cfg, old(State()), args, old(At(ch))))
    {
      hide Protocol.ParseOptionalMsgNum, RenderEffect;
      var parsed := ParseOptionalMsgNum(args);
      match parsed
      case Bad(n) => RefuseClient(n);
      case Good(num) =>
        match ch.session.uidl(num)
        case Err(e) => RefuseCall(e, CallUidl(num));
        case Ok(items) =>
          if num > 0 {
            if |items| != 1 {
              RefuseCall(NO_SUCH_MESSAGE, CallUidl(num));
              return;
            }
            Confirm(OneUid(items[0]), [CallUidl(num)]);
            return;
          }
          WriteListing(MessageCount(|items|), UidlLines(items), CallUidl(num));
    }

    /** Streams a body through the stuffing writer; a read error leaves it unterminated. */
    method SendStuffed(body: Body)
      requires Ready()
      modifies writer
      ensures Ready() && Out() == old(Out()) + Streamed(body)
    {
      hide DotStuff.Encode, DotStuff.Completion, DotStuff.After, Concat;
      var dsw := new DotStuffWriter(writer);
      var copied, _ := CopyBody(dsw, body.chunks);
      if !body.failed {
        var closed := dsw.Close();
      }
      StreamedPieces(old(Out()), body);
      assert Out() == before + writer.out;
    }

    /** A body after its status line; an unterminated one drops the connection. */
    method StreamBody(n: Notice, body: Body, ghost x: Call)
      requires Ready()
      modifies this, writer
      ensures Did(SendBody(old(State()), n, body, x))
    {
      hide MessageOf, StatusLine, RenderEffect, Render, Streamed, Concat, SendBody;
      ghost var e := SendBody(State(), n, body, x);
      BodySent(State(), n, body, x);
      BodyWritten(Out(), e, body);
      Okay(MessageOf(n));
      SendStuffed(body);
      calls := calls + [x];
      if body.failed {
        closePending := true;
      }
      assert slept + [] == slept;
    }

    method HandleRetr(args: seq<string>, ch: Chance)
      requires Ready()
      modifies this, writer
      ensures Did(Protocol.HandleRetr(cfg, old(State()), args, old(At(ch))))
    {
      hide Protocol.ParseMsgNum, RenderEffect, SendBody;
      var parsed := ParseMsgNum(args);
      match parsed
      case Bad(n) => RefuseClient(n);
      case Good(num) =>
        match ch.session.retr(num)
        case Err(e) => RefuseCall(e, CallRetr(num));
        case Ok(body) =>
          var n := if body.octets.Some? then Octets(body.octets.value) else MessageFollows;
          StreamBody(n, body, CallRetr(num));
    }

    method HandleTop(args: seq<string>, ch: Chance)
      requires Ready()
      modifies this, writer
      ensures Did(Protocol.HandleTop(cfg, old(State()), args, old(At(ch))))
    {
      hide Protocol.ParseMsgNum, RenderEffect, SendBody, IsNumber, Value;
      if |args| < 2 {
        RefuseClient(TopSyntax);
        return;
      }
      var parsed := ParseMsgNum(args[..1]);
      match parsed
      case Bad(n) => RefuseClient(n);
      case Good(num) =>
        var lines, _ := ParseInt(args[1]);
        if lines.None? || lines.value < 0 {
          RefuseClient(BadLines);
          return;
        }
        var k := lines.value as nat;
        match ch.session.top(num, k)
        case Err(e) => RefuseCall(e, CallTop(num, k));
        case Ok(body) => StreamBody(TopFollows, body, CallTop(num, k));
    }

    method HandleDele(args: seq<string>, ch: Chance)
      requires Ready()
      modifies this, writer
      ensures Did(Protocol.HandleDele(cfg, old(State()), args, old(At(ch))))
    {
      hide Protocol.ParseMsgNum, RenderEffect;
      var parsed := ParseMsgNum(args);
      match parsed
      case Bad(n) => RefuseClient(n);
      case Good(num) =>
        match ch.session.dele(num)
        case Err(e) => RefuseCall(e, CallDele(num));
        case Ok(_) => Confirm(Deleted, [CallDele(num)]);
    }

    method HandleRset(ch: Chance)
      requires Ready()
      modifies this, writer
      ensures Did(Protocol.HandleRset(cfg, old(State()), old(At(ch))))
    {
      match ch.session.rset
      case Err(e) => RefuseCall(e, CallRset);
      case Ok(_) => Confirm(WasReset, [CallRset]);
    }

    method HandleNoop(ch: Chance)
      requires Ready()
      modifies this, writer
      ensures Did(Protocol.HandleNoop(cfg, old(State()), old(At(ch))))
    {
      match ch.session.noop
      case Err(e) => RefuseCall(e, CallNoop);
      case Ok(_) => Confirm(Done, [CallNoop]);
    }

    method HandleQuit(ch: Chance)
      requires Ready()
      modifies this, writer
      ensures Did(Protocol.HandleQuit(cfg, old(State()), old(At(ch))))
    {
      hide Render;
      match ch.session.quit
      case Err(e) => RefuseCall(e, CallQuit);
      case Ok(n) =>
        if n > 0 {
          Confirm(Expunged(n), [CallQuit]);
        } else {
          Confirm(Goodbye, [CallQuit]);
        }
    }

    method HandleLang(args: seq<string>, ch: Chance)
      requires Ready()
      modifies this, writer
      ensures Did(Protocol.HandleLang(cfg, old(State()), args, old(At(ch))))
    {
      hide RenderEffect;
      if ch.session.lang.None? {
        RefuseClient(NoLang);
        return;
      }
      var lang := ch.session.lang.value;
      if |args| == 0 {
        match lang.list {
          case Err(e) => RefuseCall(e, CallListLanguages);
          case Ok(langs) => WriteListing(LanguagesFollow, LangLines(langs), CallListLanguages);
        }
        return;
      }
      match lang.set_(args[0])
      case Err(e) => RefuseCall(e, CallSetLanguage(args[0]));
      case Ok(tag) => Confirm(LanguageSet(tag), [CallSetLanguage(args[0])]);
    }

    method HandleUTF8(ch: Chance)
      requires Ready()
      modifies this, writer
      ensures Did(Protocol.HandleUTF8(cfg, old(State()), old(At(ch))))
    {
      hide RenderEffect;
      match ch.session.utf8
      case None => RefuseClient(NoUtf8);
      case Some(Err(e)) => RefuseCall(e, CallEnableUTF8);
      case Some(Ok(_)) => Confirm(Utf8Enabled, [CallEnableUTF8]);
    }

    // ----- The command loop -----

    method DispatchAuth(c: Command, ch: Chance) returns (quit: bool)
      requires Ready() && !authenticated && rawArg == c.raw
      modifies this, writer, reader
      ensures Went(Protocol.DispatchAuth(cfg, old(State()), c, old(At(ch))))
      ensures quit <==> Protocol.DispatchAuth(cfg, old(State()), c, old(At(ch))).quit
    {
      hide Render, MessageOf, Protocol.HandleCapa, Protocol.HandleUser, Protocol.HandlePass, Protocol.HandleAuth,
           Protocol.HandleSTLS, Protocol.HandleUTF8, Protocol.HandleLang, Take;
      NeverQuits(cfg, State(), c, At(ch));
      NothingFurther(cfg, reader.rest, heard, isTLS);
      quit := false;
      match c.verb
      case CAPA => HandleCapa(ch);
      case USER => HandleUser(c.args);
      case PASS => HandlePass(ch);
      case AUTH => HandleAuth(c.args, ch);
      case STLS => HandleSTLS(ch);
      case QUIT =>
        Confirm(Goodbye, []);
        quit := true;
      case UTF8 => HandleUTF8(ch);
      case LANG => HandleLang(c.args, ch);
      case LAST => RefusePlainly(LastIsObsolete);
      case Other(name) => RefuseClient(UnknownCommand(name));
      case _ => RefuseClient(NotAuthenticated);
    }

    method DispatchTransaction(c: Command, ch: Chance) returns (quit: bool)
      requires Ready() && authenticated
      modifies this, writer
      ensures var e := Protocol.DispatchTransaction(cfg, old(State()), c, old(At(ch))); Did(e) && quit == e.quit
    {
      hide RenderEffect, Protocol.HandleCapa, Protocol.HandleStat, Protocol.HandleList, Protocol.HandleUidl,
           Protocol.HandleRetr, Protocol.HandleTop, Protocol.HandleDele, Protocol.HandleRset, Protocol.HandleNoop,
           Protocol.HandleQuit, Protocol.HandleLang, Protocol.HandleUTF8, Take;
      NeverQuits(cfg, State(), c, At(ch));
      quit := false;
      match c.verb
      case CAPA => HandleCapa(ch);
      case STAT => HandleStat(ch);
      case LIST => HandleList(c.args, ch);
      case UIDL => HandleUidl(c.args, ch);
      case RETR => HandleRetr(c.args, ch);
      case TOP => HandleTop(c.args, ch);
      case DELE => HandleDele(c.args, ch);
      case RSET => HandleRset(ch);
      case NOOP => HandleNoop(ch);
      case QUIT =>
        HandleQuit(ch);
        quit := true;
      case LANG => HandleLang(c.args, ch);
      case UTF8 => HandleUTF8(ch);
      case LAST => RefusePlainly(LastIsObsolete);
      case _ => RefuseClient(UnknownCommand(NameOf(c.verb)));
    }

    /** A refusal that is not counted as an error. */
    method RefusePlainly(n: Notice)
      requires Ready()
      modifies writer
      ensures Did(Answer(old(State()), Status(false, n), []))
    {
      hide MessageOf, StatusLine;
      Fail(MessageOf(n));
      assert calls + [] == calls && slept + [] == slept;
    }

    method Dispatch(c: Command, ch: Chance) returns (quit: bool)
      requires Ready() && rawArg == c.raw
      modifies this, writer, reader
      ensures var e := Protocol.Dispatch(cfg, old(State()), c, old(At(ch))); Went(e) && quit == e.quit
    {
      hide RenderEffect, Protocol.DispatchAuth, Protocol.DispatchTransaction, Take;
      NothingFurther(cfg, reader.rest, heard, isTLS);
      if authenticated {
        quit := DispatchTransaction(c, ch);
      } else {
        quit := DispatchAuth(c, ch);
      }
    }

    /** The fields show the run `b`: what was written and called, and, while it is served, the
        bytes still to come. */
    ghost predicate Shows(b: ByteRun)
      reads this, writer, reader
    {
      && Ready() && State() == b.run.st && Out() == b.run.out && calls == b.run.calls && slept == b.run.slept
      && heard == b.heard
      && (b.run.live ==> reader.rest == Stream(b) && (isTLS || b.secure == secure))
    }

    /** One turn of the loop: a line is read, dispatched and answered, and then it is decided
        in one place whether the connection goes on. */
    method Turn(ch: Chance, ghost b: ByteRun) returns (live: bool)
      requires Shows(b) && b.run.live
      modifies this, writer, reader
      ensures Shows(Wire.Turn(cfg, b, ch)) && live == Wire.Turn(cfg, b, ch).run.live
      ensures (reader == old(reader) || fresh(reader)) && (writer == old(writer) || fresh(writer))
    {
      hide Wire.Turn, Protocol.Dispatch, ParseCommand, Take, Further, TrimSpace, Advance, Abandon, FailureOf, EnvAt;
      var raw, err := ReadLine();
      if err.Some? {
        TurnFailed(cfg, b, ch);
        GiveUp(FailureOf(err.value, ch.ending), b.run);
        return false;
      }
      TurnTook(cfg, b, ch);
      var line := TrimSpace(raw);
      if line == "" {
        return true;
      }
      live := Execute(line, ch, b.run);
    }

    /** A command is dispatched and its turn settled: the run advances by its effect. */
    method Execute(line: string, ch: Chance, ghost r: Run) returns (live: bool)
      requires Ready() && State() == r.st && Out() == r.out && calls == r.calls && slept == r.slept
      modifies this, writer, reader
      ensures var env := old(At(ch));
              var e := Protocol.Dispatch(cfg, r.st, ParseCommand(line), env);
              var r', more := Advance(cfg, r, line, env, e), Further(cfg, e.prompted, old(reader.rest));
              && Ready() && State() == r'.st && Out() == r'.out && calls == r'.calls && slept == r'.slept
              && live == r'.live
              && heard == old(heard) + OnLayer(more.0, r.st.isTLS)
              && (live ==> reader.rest == if isTLS != r.st.isTLS then secure else more.1)
              && (r.st.isTLS ==> isTLS)
      ensures (reader == old(reader) || fresh(reader)) && (writer == old(writer) || fresh(writer))
    {
      hide Protocol.Dispatch, ParseCommand, Take, Further, RenderEffect, Render, OnLayer, MaxErrorsExceeded;
      var c := ParseCommand(line);
      rawArg := c.raw;
      var quit := Dispatch(c, ch);
      live := Settle(quit, ch.flushed);
    }

    /** The end of a connection that yields no more lines. */
    method GiveUp(f: Failure, ghost r: Run)
      requires Ready() && Out() == r.out && calls == r.calls
      modifies this`calls, writer
      ensures Ready() && Out() == Abandon(r, f).out && calls == Abandon(r, f).calls
      ensures Abandon(r, f).st == r.st && Abandon(r, f).slept == r.slept && !Abandon(r, f).live
    {
      hide MessageOf, StatusLine;
      match f {
        case LineTooLong => Fail(MessageOf(TooLongLine));
        case IdleTimeout => Fail(MessageOf(IdleTooLong));
        case AbsoluteTimeout => Fail(MessageOf(SessionTooLong));
        case Disconnected => assert Out() + "" == Out();
      }
      calls := calls + [CallClose];
    }

    /** The end of a turn: the error limit is enforced centrally, the response is flushed. */
    method Settle(quit: bool, flushed: bool) returns (live: bool)
      requires Ready()
      modifies this`calls, writer
      ensures Ready()
      ensures var wants := hijacked || quit || closePending;
              var over := MaxErrorsExceeded(cfg, State());
              && live == (!wants && !over && flushed)
              && Out() == old(Out()) + Render(if !wants && over then Status(false, TooManyErrors) else NoResponse)
              && calls == old(calls) + if live then [] else [CallClose]
    {
      hide MessageOf, StatusLine;
      var over := cfg.maxErrors > 0 && errorCount >= cfg.maxErrors;
      assert Out() + "" == Out() && calls + [] == calls;
      if hijacked {
        calls := calls + [CallClose];
        return false;
      }
      var ends := quit;
      if !ends && closePending {
        ends := true;
      }
      if !ends && over {
        Fail(MessageOf(TooManyErrors));
        ends := true;
      }
      live := flushed && !ends;
      if !live {
        calls := calls + [CallClose];
      }
    }

    /** The command loop refines the specification: whatever bytes the client sends on either
        layer and however the turns go, the fields, the output, the session calls, the sleeps
        and the lines heard are those of the specified run. */
    method Serve(greetingFlushed: bool, chs: seq<Chance>, ghost plain: string) returns (live: bool)
      requires Ready() && State() == ConnState(false, "", 0, isTLS, false, false)
      requires reader.rest == if isTLS then secure else plain
      requires Out() == "" && heard == [] && calls == [] && slept == []
      modifies this, writer, reader
      ensures var b := Play(cfg, Connect(cfg, old(isTLS), greetingFlushed, plain, secure), chs);
              Shows(b) && live == b.run.live
    {
      hide MessageOf, StatusLine, Wire.Turn;
      ghost var start := Connect(cfg, isTLS, greetingFlushed, plain, secure);
      Okay(MessageOf(Greeting(cfg.greeting)));
      GreetingText(cfg.greeting);
      if !greetingFlushed {
        calls := calls + [CallClose];
        PlayDead(cfg, start, chs);
        return false;
      }
      live := true;
      ghost var b := start;
      var i := 0;
      while i < |chs| && live
        invariant i <= |chs|
        invariant b == Play(cfg, start, chs[..i])
        invariant Shows(b) && live == b.run.live
        invariant (reader == old(reader) || fresh(reader)) && (writer == old(writer) || fresh(writer))
      {
        PlayNext(cfg, start, chs, i);
        live := Turn(chs[i], b);
        b := Wire.Turn(cfg, b, chs[i]);
        i := i + 1;
      }
      PlaySplit(cfg, start, chs, i);
      if !live {
        PlayDead(cfg, b, chs[i..]);
      } else {
        assert chs[i..] == [];
      }
    }
  }

  lemma SameOutput(e: Effect, e': Effect)
    requires e.response == e'.response && e.prompted == e'.prompted
    ensures RenderEffect(e) == RenderEffect(e')
  {
  }

  /** A command that takes no further line. */
  lemma NothingFurther(cfg: Config, s: string, heard: seq<Heard>, layer: bool)
    ensures Further(cfg, false, s) == ([], s) && heard + OnLayer([], layer) == heard
  {
  }

  lemma PromptOnly(e: Effect)
    requires e.prompted && e.response.NoResponse?
    ensures RenderEffect(e) == "+ \r\n"
  {
  }

  lemma PromptWritten(was: string, cfg: Config, st: ConnState, encoded: string, env: Env)
    ensures var e := FinishAuth(cfg, st, encoded, env);
            was + "+ \r\n" + RenderEffect(e) == was + RenderEffect(e.(prompted := true))
  {
    hide Render, Sasl.DecodePlain;
    var e := FinishAuth(cfg, st, encoded, env);
    assert !e.prompted;
  }

  lemma BlockSnoc(lines: seq<string>, i: nat)
    requires i < |lines|
    ensures Block(lines[..i + 1]) == Block(lines[..i]) + lines[i] + CRLF
  {
    assert lines[..i + 1] == lines[..i] + [lines[i]];
    BlockConcat(lines[..i], [lines[i]]);
    assert Block([lines[i]]) == lines[i] + CRLF + "";
  }

  /** The bytes of a body as it is streamed. */
  function Streamed(body: Body): string {
    if body.failed then DotStuff.Encode(DotStuff.START, Concat(body.chunks)) else DotStuff.Stuffed(Concat(body.chunks))
  }

  /** The pieces in which a body is written. */
  lemma StreamedPieces(was: string, body: Body)
    ensures var data := Concat(body.chunks);
            var encoded := was + DotStuff.Encode(DotStuff.START, data);
            if body.failed then encoded == was + Streamed(body)
            else encoded + (DotStuff.Completion(DotStuff.After(DotStuff.START, data)) + "." + CRLF)
                 == was + Streamed(body)
  {
    hide Concat, DotStuff.Encode, DotStuff.Completion, DotStuff.After;
  }

  lemma BodySent(st: ConnState, n: Notice, body: Body, x: Call)
    ensures var e := SendBody(st, n, body, x);
            && e.calls == [x] && e.delays == [] && !e.prompted && !e.quit
            && e.next == (if body.failed then st.(closePending := true) else st)
            && e.response == if body.failed then Broken(n, Concat(body.chunks)) else Message(n, Concat(body.chunks))
  {
    hide Concat;
  }

  lemma BodyWritten(was: string, e: Effect, body: Body)
    requires !e.prompted
    requires if body.failed then e.response.Broken? && e.response.partial == Concat(body.chunks)
             else e.response.Message? && e.response.body == Concat(body.chunks)
    ensures was + StatusLine(true, MessageOf(e.response.notice)) + CRLF + Streamed(body) == was + RenderEffect(e)
  {
    hide MessageOf, StatusLine, DotStuff.Encode, DotStuff.Stuffed, Concat;
    assert RenderEffect(e) == StatusLine(true, MessageOf(e.response.notice)) + CRLF + Streamed(body);
  }

  /** The pieces in which a list of lines is written. */
  lemma ListingWritten(was: string, e: Effect)
    requires e.response.Listing? && !e.prompted
    ensures was + StatusLine(true, MessageOf(e.response.notice)) + CRLF + Block(e.response.lines) + ".\r\n"
            == was + RenderEffect(e)
  {
    hide MessageOf, StatusLine, Block;
    var l := StatusLine(true, MessageOf(e.response.notice));
    assert RenderEffect(e) == l + CRLF + Block(e.response.lines) + "." + CRLF;
  }

  lemma Reassociate<T>(a: seq<T>, b: seq<T>, c: seq<T>, d: seq<T>, e: seq<T>)
    ensures a + b + c + d + e == a + (b + c + d + e)
  {
  }

  lemma NoCapLines(cfg: Config)
    ensures Block(CapLines(cfg, [])) == ""
  {
  }

  lemma {:induction false} CapLinesSnoc(cfg: Config, caps: seq<Capability>, c: Capability)
    ensures CapLines(cfg, caps + [c]) == CapLines(cfg, caps) + CapLine(cfg, c.name, c.params)
  {
    hide CapLine;
    if caps == [] {
      assert [c][1..] == [];
      assert CapLines(cfg, []) == [];
      assert CapLine(cfg, c.name, c.params) + [] == CapLine(cfg, c.name, c.params);
    } else {
      assert (caps + [c])[1..] == caps[1..] + [c];
      CapLinesSnoc(cfg, caps[1..], c);
    }
  }

  lemma GreetingText(text: string)
    ensures MessageOf(Greeting(text)) == text
  {
  }

  /** Only QUIT ends the session by itself. */
  lemma NeverQuits(cfg: Config, st: ConnState, c: Command, env: Env)
    ensures Protocol.Dispatch(cfg, st, c, env).quit <==> c.verb == QUIT
  {
    hide Sasl.DecodePlain, ParseNumber, Advertised, CapLines, ListLines, UidlLines, LangLines, Concat;
  }
}
