/** What CAPA offers against what the commands do: which offers stand in the lines CAPA writes,
    which commands are accepted, and exactly where the two differ. */
module Capabilities {
  import opened Text
  import opened Sessions
  import opened Protocol
  import Sasl

  datatype Offer = UserOffer | StlsOffer | PlainOffer | LangOffer | Utf8Offer

  function Keyword(o: Offer): string {
    match o
    case UserOffer => "USER"
    case StlsOffer => "STLS"
    case PlainOffer => "SASL"
    case LangOffer => "LANG"
    case Utf8Offer => "UTF8"
  }

  /** How a client reads a capability line: its first word is the keyword; the mechanisms of
      SASL follow it. */
  predicate Announces(line: string, o: Offer) {
    var words := Fields(line);
    words != [] && words[0] == Keyword(o) && (o.PlainOffer? ==> Contains(words[1..], "PLAIN"))
  }

  /** Some line of the response to CAPA makes the offer. */
  ghost predicate Offered(cfg: Config, st: ConnState, s: Session, o: Offer) {
    exists line :: line in CapLines(cfg, Advertised(cfg, st, s)) && Announces(line, o)
  }

  /** The line CAPA writes for some configured capability makes the offer. */
  ghost predicate Configured(cfg: Config, o: Offer) {
    exists line :: line in CapLines(cfg, cfg.caps) && Announces(line, o)
  }

  /** What the offer stands for. */
  predicate Due(cfg: Config, st: ConnState, s: Session, o: Offer) {
    match o
    case UserOffer => AuthAllowed(cfg, st)
    case StlsOffer => cfg.tlsAvailable && !st.isTLS
    case PlainOffer => AuthAllowed(cfg, st) && s.mechanisms.Some? && Contains(s.mechanisms.value, "PLAIN")
    case LangOffer => s.lang.Some?
    case Utf8Offer => s.utf8.Some?
  }

  predicate Suppressed(cfg: Config, o: Offer) {
    Contains(cfg.suppressedCaps, Keyword(o))
  }

  predicate NamedByTokens(s: Session) {
    s.mechanisms.Some? ==> forall i :: 0 <= i < |s.mechanisms.value| ==> IsToken(s.mechanisms.value[i])
  }

  // ----- What is offered -----

  /** The capabilities of the library itself, before those configured. */
  function BuiltIn(cfg: Config, st: ConnState, s: Session): seq<Capability> {
    Basic(AuthAllowed(cfg, st)) + Extensions(AuthAllowed(cfg, st), cfg.tlsAvailable && !st.isTLS, s)
  }

  lemma OneCap(b: bool, name: string, params: seq<string>, c: Capability)
    ensures c in CapIf(b, name, params) <==> b && c == Capability(name, params)
  {
  }

  function Mechanisms(s: Session): seq<string> {
    if s.mechanisms.Some? then s.mechanisms.value else []
  }

  /** The capabilities one by one, each with its condition. */
  lemma BuiltInCaps(cfg: Config, st: ConnState, s: Session, c: Capability)
    ensures c in BuiltIn(cfg, st, s) <==>
            || (c.params == [] && c.name in {"TOP", "UIDL", "RESP-CODES", "PIPELINING"})
            || (c == Capability("USER", []) && AuthAllowed(cfg, st))
            || (c == Capability("STLS", []) && cfg.tlsAvailable && !st.isTLS)
            || (c == Capability("SASL", Mechanisms(s)) && AuthAllowed(cfg, st) && Mechanisms(s) != [])
            || (c == Capability("LANG", []) && s.lang.Some?)
            || (c == Capability("UTF8", []) && s.utf8.Some?)
  {
    hide CapIf;
    var auth, stls := AuthAllowed(cfg, st), cfg.tlsAvailable && !st.isTLS;
    OneCap(true, "TOP", [], c);
    OneCap(true, "UIDL", [], c);
    OneCap(auth, "USER", [], c);
    OneCap(true, "RESP-CODES", [], c);
    OneCap(true, "PIPELINING", [], c);
    OneCap(stls, "STLS", [], c);
    OneCap(auth && Mechanisms(s) != [], "SASL", Mechanisms(s), c);
    OneCap(s.lang.Some?, "LANG", [], c);
    OneCap(s.utf8.Some?, "UTF8", [], c);
  }

  lemma {:induction false} LinesConcat(cfg: Config, a: seq<Capability>, b: seq<Capability>)
    ensures CapLines(cfg, a + b) == CapLines(cfg, a) + CapLines(cfg, b)
  {
    hide CapLine;
    if a == [] {
      assert a + b == b;
    } else {
      assert (a + b)[1..] == a[1..] + b;
      LinesConcat(cfg, a[1..], b);
    }
  }

  /** The line of a capability of tokens is read back word by word. */
  lemma LineWords(name: string, params: seq<string>)
    requires IsToken(name) && forall p :: p in params ==> IsToken(p)
    ensures Fields(if params == [] then name else name + " " + Join(params)) == [name] + params
  {
    hide Fields;
    if params == [] {
      FieldsOfToken(name);
    } else {
      FieldsOfJoin(params);
      FieldsCons(name, " " + Join(params));
      SpaceFirst(Join(params));
      assert name + " " + Join(params) == name + (" " + Join(params));
    }
  }

  lemma SpaceFirst(s: string)
    ensures Fields(" " + s) == Fields(s)
  {
    assert (" " + s)[1..] == s;
  }

  lemma CapLineAnnounces(cfg: Config, c: Capability, line: string, o: Offer)
    requires IsToken(c.name) && forall p :: p in c.params ==> IsToken(p)
    requires line in CapLine(cfg, c.name, c.params)
    ensures Announces(line, o) <==> c.name == Keyword(o) && (o.PlainOffer? ==> Contains(c.params, "PLAIN"))
  {
    hide Fields, IsToken;
    LineWords(c.name, c.params);
    assert ([c.name] + c.params)[1..] == c.params;
  }

  lemma KeywordTokens()
    ensures forall o: Offer :: IsToken(Keyword(o))
    ensures IsToken("TOP") && IsToken("UIDL") && IsToken("RESP-CODES") && IsToken("PIPELINING")
    ensures forall o: Offer :: Keyword(o) !in {"TOP", "UIDL", "RESP-CODES", "PIPELINING"}
    ensures forall o: Offer, o': Offer :: Keyword(o) == Keyword(o') ==> o == o'
  {
    assert "USER"[1] == 'S' && "STLS"[1] == 'T' && "UIDL"[1] == 'I' && "UTF8"[1] == 'T' && "SASL"[1] == 'A';
  }

  lemma BuiltInTokens(cfg: Config, st: ConnState, s: Session, c: Capability)
    requires NamedByTokens(s) && c in BuiltIn(cfg, st, s)
    ensures IsToken(c.name) && forall p :: p in c.params ==> IsToken(p)
  {
    hide BuiltIn, IsToken;
    BuiltInCaps(cfg, st, s, c);
    KeywordTokens();
    assert IsToken(Keyword(UserOffer)) && IsToken(Keyword(StlsOffer)) && IsToken(Keyword(PlainOffer));
    assert IsToken(Keyword(LangOffer)) && IsToken(Keyword(Utf8Offer));
  }

  /** The capability that makes an offer. */
  function CapOf(s: Session, o: Offer): Capability {
    Capability(Keyword(o), if o.PlainOffer? then Mechanisms(s) else [])
  }

  lemma OnlyCapOf(cfg: Config, st: ConnState, s: Session, o: Offer, c: Capability)
    ensures c in BuiltIn(cfg, st, s) && c.name == Keyword(o) && (o.PlainOffer? ==> Contains(c.params, "PLAIN"))
            <==> c == CapOf(s, o) && Due(cfg, st, s, o)
  {
    hide BuiltIn;
    BuiltInCaps(cfg, st, s, c);
    KeywordTokens();
    assert Keyword(UserOffer) == "USER" && Keyword(StlsOffer) == "STLS" && Keyword(PlainOffer) == "SASL";
    assert Keyword(LangOffer) == "LANG" && Keyword(Utf8Offer) == "UTF8";
    hide Keyword;
  }

  /** The library's own lines make exactly the offers that are due and not suppressed. */
  lemma BuiltInOffers(cfg: Config, st: ConnState, s: Session, o: Offer)
    requires NamedByTokens(s)
    ensures (exists line :: line in CapLines(cfg, BuiltIn(cfg, st, s)) && Announces(line, o))
            <==> Due(cfg, st, s, o) && !Suppressed(cfg, o)
  {
    hide BuiltIn, Announces, Due, IsToken, Contains, NamedByTokens;
    var caps := BuiltIn(cfg, st, s);
    if line :| line in CapLines(cfg, caps) && Announces(line, o) {
      LinesListed(cfg, caps, line);
      var i :| 0 <= i < |caps| && !Contains(cfg.suppressedCaps, caps[i].name)
               && line in CapLine(cfg, caps[i].name, caps[i].params);
      assert caps[i] in caps;
      BuiltInTokens(cfg, st, s, caps[i]);
      CapLineAnnounces(cfg, caps[i], line, o);
      OnlyCapOf(cfg, st, s, o, caps[i]);
    }
    if Due(cfg, st, s, o) && !Suppressed(cfg, o) {
      var c := CapOf(s, o);
      OnlyCapOf(cfg, st, s, o, c);
      var i :| 0 <= i < |caps| && caps[i] == c;
      var line := if c.params == [] then c.name else c.name + " " + Join(c.params);
      LinesListed(cfg, caps, line);
      BuiltInTokens(cfg, st, s, c);
      CapLineAnnounces(cfg, c, line, o);
    }
  }

  /** Exactly these offers are made: those due and not suppressed, and those of configured
      capabilities. */
  lemma OfferedExactly(cfg: Config, st: ConnState, s: Session, o: Offer)
    requires NamedByTokens(s)
    ensures Offered(cfg, st, s, o) <==> (Due(cfg, st, s, o) && !Suppressed(cfg, o)) || Configured(cfg, o)
  {
    hide Announces, Due, Suppressed, NamedByTokens, CapLines, Basic, Extensions;
    BuiltInOffers(cfg, st, s, o);
    LinesConcat(cfg, BuiltIn(cfg, st, s), cfg.caps);
    assert Advertised(cfg, st, s) == BuiltIn(cfg, st, s) + cfg.caps;
  }

  // ----- What is accepted -----

  function Answered(cfg: Config, st: ConnState, env: Env, verb: Verb, args: seq<string>): Response {
    Dispatch(cfg, st, Command(verb, args, Join(args)), env).response
  }

  /** The command offered is not refused for what it is. */
  predicate Accepted(cfg: Config, st: ConnState, env: Env, o: Offer, arg: string) {
    match o
    case UserOffer => Answered(cfg, st, env, USER, [arg]) == Status(true, Done)
    case StlsOffer =>
      Answered(cfg, st, env, STLS, [])
      !in {Status(false, AlreadyTLS), Status(false, NoTLS), Status(false, UnknownCommand("STLS"))}
    case PlainOffer =>
      Answered(cfg, st, env, AUTH, ["PLAIN", arg])
      !in {Status(false, TlsFirst), Status(false, NoSasl), Status(false, BadMechanism),
           Status(false, UnknownCommand("AUTH"))}
    case LangOffer => Answered(cfg, st, env, LANG, []) != Status(false, NoLang)
    case Utf8Offer => Answered(cfg, st, env, UTF8, []) != Status(false, NoUtf8)
  }

  /** Offers that hold in both states. */
  predicate Lasting(o: Offer) {
    o.LangOffer? || o.Utf8Offer?
  }

  lemma AcceptedExactly(cfg: Config, st: ConnState, env: Env, o: Offer, arg: string)
    requires IsToken(arg) && !ContainsCTL(arg)
    ensures Accepted(cfg, st, env, o, arg) <==> Due(cfg, st, env.session, o) && (st.authenticated ==> Lasting(o))
  {
    hide Sasl.DecodePlain, LangLines, Contains, Join, IsToken, ContainsCTL, ToUpper;
    if o.PlainOffer? {
      PlainAccepted(cfg, st, env, arg);
    }
  }

  lemma PlainAccepted(cfg: Config, st: ConnState, env: Env, arg: string)
    ensures Accepted(cfg, st, env, PlainOffer, arg) <==> Due(cfg, st, env.session, PlainOffer) && !st.authenticated
  {
    hide FinishAuth, Contains, Join;
    UpperAlready("PLAIN");
    FinishesOtherwise(cfg, st, arg, env);
  }

  lemma FinishesOtherwise(cfg: Config, st: ConnState, encoded: string, env: Env)
    ensures FinishAuth(cfg, st, encoded, env).response
            !in {Status(false, TlsFirst), Status(false, NoSasl), Status(false, BadMechanism),
                 Status(false, UnknownCommand("AUTH"))}
  {
    hide Sasl.DecodePlain;
  }

  // ----- Where they differ -----

  /** The exact conditions. An offer is false when it is due for the AUTHORIZATION state only
      and the connection has left it, or when it is configured without being accepted; a command
      is accepted without being offered when the offer is suppressed and not configured. */
  lemma OffersAgainstCommands(cfg: Config, st: ConnState, env: Env, o: Offer, arg: string)
    requires NamedByTokens(env.session) && IsToken(arg) && !ContainsCTL(arg)
    ensures Offered(cfg, st, env.session, o) && !Accepted(cfg, st, env, o, arg)
            <==> (st.authenticated && !Lasting(o) && Due(cfg, st, env.session, o) && !Suppressed(cfg, o))
                 || (Configured(cfg, o)
                     && (!Due(cfg, st, env.session, o) || (st.authenticated && !Lasting(o))))
    ensures Accepted(cfg, st, env, o, arg) && !Offered(cfg, st, env.session, o)
            <==> Due(cfg, st, env.session, o) && (st.authenticated ==> Lasting(o))
                 && Suppressed(cfg, o) && !Configured(cfg, o)
  {
    hide Offered, Accepted, Due, Suppressed, Configured, NamedByTokens, IsToken, ContainsCTL;
    OfferedExactly(cfg, st, env.session, o);
    AcceptedExactly(cfg, st, env, o, arg);
  }

  /** Suppressing a capability hides its line and no other. */
  lemma {:induction false} LinesListed(cfg: Config, caps: seq<Capability>, line: string)
    ensures line in CapLines(cfg, caps) <==>
            exists i :: 0 <= i < |caps| && !Contains(cfg.suppressedCaps, caps[i].name)
                        && line in CapLine(cfg, caps[i].name, caps[i].params)
  {
    hide Contains;
    if caps != [] {
      LinesListed(cfg, caps[1..], line);
      if line in CapLines(cfg, caps[1..]) {
        var i :| 0 <= i < |caps[1..]| && !Contains(cfg.suppressedCaps, caps[1..][i].name)
                 && line in CapLine(cfg, caps[1..][i].name, caps[1..][i].params);
        assert caps[i + 1] == caps[1..][i];
      }
      if i :| 0 <= i < |caps| && !Contains(cfg.suppressedCaps, caps[i].name)
              && line in CapLine(cfg, caps[i].name, caps[i].params) {
        if i > 0 {
          assert caps[1..][i - 1] == caps[i];
        }
      }
    }
  }
}
