/** Answers as the client sees them, byte by byte, where the text carries a meaning: codes and
    masking of session errors, the announced size, languages, the closing responses; and the
    refusals that depend on the state and the arguments alone. */
module Answers {
  import opened Lines
  import opened Text
  import opened Numbers
  import opened Sessions
  import opened Protocol
  import opened LineReader
  import opened Wire
  import Casing
  import Endings
  import Maildrop
  import Reports
  import DotStuff
  import DotStuffWriters

  // ----- Errors of the session -----

  /** An error without a message says no more than that there was one; a code is put in front, in
      brackets and upper case. */
  lemma CodedError(code: string, message: string, close: bool, strict: bool)
    ensures var text := if message == "" then "internal error" else message;
            MessageOf(OfSession(Protocol(code, message, close), strict)) ==
            if code == "" then text else "[" + ToUpper(code) + "] " + text
    ensures SameLetters(ToUpper(code), code) && forall c :: c in ToUpper(code) ==> !('a' <= c <= 'z')
  {
  }

  /** The lines that say a text, of which only CRs and LFs would be lost. */
  function Plus(text: string): string {
    "+OK " + Sanitize(text) + CRLF
  }

  function Minus(text: string): string {
    "-ERR " + Sanitize(text) + CRLF
  }

  /** A notice with a text is one of these lines. */
  lemma AsItIs(ok: bool, n: Notice, text: string)
    requires MessageOf(n) == text && text != ""
    ensures Render(Status(ok, n)) == NoticeLine(ok, n) == if ok then Plus(text) else Minus(text)
  {
    hide MessageOf, Sanitize;
    assert ("-ERR" + (" " + Sanitize(text))) + CRLF == "-ERR " + Sanitize(text) + CRLF;
    assert ("+OK" + (" " + Sanitize(text))) + CRLF == "+OK " + Sanitize(text) + CRLF;
  }

  const MASK := "internal error"

  lemma TextOfError(text: string, strict: bool)
    ensures MessageOf(OfSession(Plain(text), strict)) == if strict then MASK else text
    ensures MessageOf(OfSession(CloseConnection, strict)) == MASK
  {
  }

  /** Under strict errors the text of a plain error never shows, nor that of a bare request to
      close under any. */
  lemma MaskedError(text: string, strict: bool)
    ensures strict ==> Render(Status(false, OfSession(Plain(text), strict))) == Minus(MASK)
    ensures !strict && text != "" ==>
              Render(Status(false, OfSession(Plain(text), strict))) == Minus(text)
    ensures Render(Status(false, OfSession(CloseConnection, strict))) == Minus(MASK)
  {
    hide MessageOf, Render, Minus;
    TextOfError(text, strict);
    AsItIs(false, OfSession(CloseConnection, strict), MASK);
    if strict {
      AsItIs(false, OfSession(Plain(text), strict), MASK);
    } else if text != "" {
      AsItIs(false, OfSession(Plain(text), strict), text);
    }
  }

  const FAILED := "[" + "AUTH" + "] " + "authentication failed"

  lemma FailedText(strict: bool)
    ensures MessageOf(OfSession(Maildrop.AUTH_FAILED, strict)) == FAILED
  {
    CodedError("AUTH", "authentication failed", false, strict);
    UpperAlready("AUTH");
    hide MessageOf;
  }

  /** A failed login on the in-memory maildrop: the code AUTH, and no request to close. */
  lemma FailedLogin(strict: bool)
    ensures !Endings.Closes(Maildrop.AUTH_FAILED)
    ensures Render(Status(false, OfSession(Maildrop.AUTH_FAILED, strict))) == Minus(FAILED)
  {
    hide MessageOf, Render, Minus;
    FailedText(strict);
    AsItIs(false, OfSession(Maildrop.AUTH_FAILED, strict), FAILED);
  }

  // ----- Bodies and languages -----

  /** The size a session announces is the size announced to the client. */
  lemma AnnouncedOctets(n: int)
    ensures Render(Status(true, Octets(n))) == Plus(DecInt(n) + " octets")
  {
    Digits(n);
    OctetsText(n);
    hide DecInt, MessageOf, Render, Plus;
    AsItIs(true, Octets(n), DecInt(n) + " octets");
  }

  lemma OctetsText(n: int)
    ensures MessageOf(Octets(n)) == DecInt(n) + " octets"
  {
    hide DecInt;
  }

  lemma Digits(n: int)
    ensures DecInt(n) != ""
  {
  }

  /** The numbers of messages expunged and listed are the ones announced. */
  lemma AnnouncedCounts(n: int)
    ensures Render(Status(true, Expunged(n))) == Plus(DecInt(n) + " messages expunged")
    ensures NoticeLine(true, MessageCount(n)) == Plus(DecInt(n) + " messages")
  {
    Digits(n);
    CountTexts(n);
    hide DecInt, MessageOf, Render, Plus;
    AsItIs(true, Expunged(n), DecInt(n) + " messages expunged");
    AsItIs(true, MessageCount(n), DecInt(n) + " messages");
  }

  lemma CountTexts(n: int)
    ensures MessageOf(Expunged(n)) == DecInt(n) + " messages expunged"
    ensures MessageOf(MessageCount(n)) == DecInt(n) + " messages"
  {
    hide DecInt;
  }

  lemma LanguageText(tag: string)
    ensures MessageOf(LanguageSet(tag)) == "Language set to " + Sanitize(tag)
  {
    hide Sanitize;
  }

  /** The language the session has set is the one named in the answer. */
  lemma LanguageNamed(tag: string)
    ensures Render(Status(true, LanguageSet(tag))) == Plus("Language set to " + Sanitize(tag))
  {
    LanguageText(tag);
    hide MessageOf, Render, Plus, Sanitize;
    AsItIs(true, LanguageSet(tag), "Language set to " + Sanitize(tag));
  }

  // ----- The end of a connection -----

  const IDLE := "Idle timeout, connection timed out"
  const EXPIRED := "[IN-USE] Maximum session duration exceeded"
  const LONG := "Line too long"
  const LIMIT := "Too many errors, closing connection"

  lemma IdleText()
    ensures MessageOf(IdleTooLong) == IDLE
  {
  }

  lemma ExpiredText()
    ensures MessageOf(SessionTooLong) == EXPIRED
  {
  }

  lemma LongText()
    ensures MessageOf(TooLongLine) == LONG
  {
  }

  lemma LimitText()
    ensures MessageOf(TooManyErrors) == LIMIT
  {
  }

  lemma EndTexts()
    ensures Render(Status(false, IdleTooLong)) == Minus(IDLE)
    ensures Render(Status(false, SessionTooLong)) == Minus(EXPIRED)
    ensures Render(Status(false, TooLongLine)) == Minus(LONG)
    ensures Render(Status(false, TooManyErrors)) == Minus(LIMIT)
  {
    hide MessageOf, Render, Minus;
    IdleText();
    ExpiredText();
    LongText();
    LimitText();
    AsItIs(false, IdleTooLong, IDLE);
    AsItIs(false, SessionTooLong, EXPIRED);
    AsItIs(false, TooLongLine, LONG);
    AsItIs(false, TooManyErrors, LIMIT);
  }

  /** Idle and absolute timeouts are told apart, and a client that is gone is told nothing. */
  lemma SilentClient(cfg: Config, b: ByteRun, ch: Chance)
    requires b.run.live && Stream(b) == ""
    ensures var b' := Turn(cfg, b, ch);
            && !b'.run.live
            && b'.run.out == b.run.out + match ch.ending
                                         case Idle => Minus(IDLE)
                                         case Expired => Minus(EXPIRED)
                                         case Gone => ""
  {
    hide MessageOf, Render, Minus, Turn, Take;
    EndTexts();
    RenderNothing();
    NothingThere(cfg);
    TurnFailed(cfg, b, ch);
  }

  lemma NothingThere(cfg: Config)
    ensures Take(cfg, "") == NoLine(EndOfStream)
  {
  }

  /** A line beyond the limit is answered and ends the connection. */
  lemma LongLine(cfg: Config, b: ByteRun, line: string, more: string, ch: Chance)
    requires b.run.live && '\n' !in line && |line| > cfg.maxLineLength
    requires Stream(b) == line + CRLF + more
    ensures var b' := Turn(cfg, b, ch);
            !b'.run.live && b'.run.out == b.run.out + Minus(LONG) && b'.run.st == b.run.st
  {
    TooLongTaken(cfg, line, more);
    hide MessageOf, Render, Minus, Turn, Take;
    EndTexts();
    TurnFailed(cfg, b, ch);
  }

  lemma TooLongTaken(cfg: Config, line: string, more: string)
    requires '\n' !in line && |line| > cfg.maxLineLength
    ensures Take(cfg, line + CRLF + more) == NoLine(ReadError.LineTooLong)
  {
    NextLineBack(cfg.maxLineLength, line, more);
  }

  /** The limit of errors is announced exactly when it is what ends the connection. */
  lemma LimitAnnounced(cfg: Config, r: Run, line: string, env: Env, e: Effect)
    ensures var r' := Advance(cfg, r, line, env, e);
            var over := !WantsToEnd(e) && cfg.maxErrors > 0 && e.next.errorCount >= cfg.maxErrors;
            r'.out == r.out + RenderEffect(e) + if over then Minus(LIMIT) else ""
  {
    hide Render, RenderEffect, Minus;
    EndTexts();
    RenderNothing();
  }

  // ----- Refusals by state and arguments -----

  /** Commands for the maildrop before authentication are faults, and the session is not asked. */
  lemma NotYet(cfg: Config, st: ConnState, c: Command, env: Env)
    requires !st.authenticated && c.verb in {STAT, LIST, UIDL, RETR, TOP, DELE, RSET, NOOP}
    ensures Dispatch(cfg, st, c, env) == ClientError(cfg, st, NotAuthenticated)
  {
    hide ClientError;
  }

  /** LAST is refused in both states without being counted. */
  lemma LastRefused(cfg: Config, st: ConnState, c: Command, env: Env)
    requires c.verb == LAST
    ensures Dispatch(cfg, st, c, env) == Answer(st, Status(false, LastIsObsolete), [])
  {
  }

  /** QUIT before authentication says goodbye without asking the session. */
  lemma QuitBefore(cfg: Config, st: ConnState, c: Command, env: Env)
    requires !st.authenticated && c.verb == QUIT
    ensures var e := Dispatch(cfg, st, c, env);
            e.quit && e.calls == [] && e.next == st && e.response == Status(true, Goodbye)
  {
  }

  /** USER is accepted exactly where authentication is permitted and for a first argument of
      characters from 0x20 on, DEL excepted; otherwise the username stays as it was. */
  lemma UserExactly(cfg: Config, st: ConnState, c: Command, env: Env)
    requires !st.authenticated && c.verb == USER
    ensures var e := Dispatch(cfg, st, c, env);
            if (cfg.insecureAuth || st.isTLS) && c.args != []
               && forall i :: 0 <= i < |c.args[0]| ==> 0x20 <= c.args[0][i] as int != 0x7F
            then e == Answer(st.(username := c.args[0]), Status(true, Done), [])
            else Reports.Fault(e.response) && e.next.username == st.username
  {
    hide Delay;
    if c.args != [] {
      ControlExactly(c.args[0]);
    }
  }

  /** PASS asks the session exactly where authentication is permitted, a username is held and there
      is an argument, with its text as it stands. */
  lemma PassExactly(cfg: Config, st: ConnState, c: Command, env: Env)
    requires !st.authenticated && c.verb == PASS
    ensures var e := Dispatch(cfg, st, c, env);
            if (cfg.insecureAuth || st.isTLS) && st.username != "" && c.raw != "" then
              var reply := env.session.login(st.username, c.raw);
              e.calls == [CallLogin(st.username, c.raw, st.isTLS, reply)]
              && (reply.Accepted? <==> e.next.authenticated) && (reply.Hijacked? ==> e.next.hijacked)
            else Reports.Fault(e.response) && e.calls == []
  {
    hide Delay;
  }

  /** AUTH without arguments lists the session's mechanisms as they are. */
  lemma MechanismsListed(cfg: Config, st: ConnState, c: Command, env: Env)
    requires !st.authenticated && c.verb == AUTH && c.args == []
    requires (cfg.insecureAuth || st.isTLS) && env.session.mechanisms.Some?
    ensures var e := Dispatch(cfg, st, c, env);
            e.response == Listing(Mechanisms, env.session.mechanisms.value) && e.next == st && e.calls == []
  {
  }

  /** Commands that need arguments say which. */
  lemma ArgumentsMissing(cfg: Config, st: ConnState, c: Command, env: Env)
    requires st.authenticated
    ensures c.verb in {RETR, DELE} && c.args == [] ==> Dispatch(cfg, st, c, env) == ClientError(cfg, st, NumberRequired)
    ensures c.verb == TOP && |c.args| < 2 ==> Dispatch(cfg, st, c, env) == ClientError(cfg, st, TopSyntax)
  {
    hide ClientError;
  }
}
