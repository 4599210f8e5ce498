/** Commands in any case: verbs and mechanism names are recognised whatever the case of their ASCII
    letters, and nothing else is taken for them. */
module Casing {
  import opened Lines
  import opened Text
  import opened Sessions
  import opened Protocol
  import opened Requests
  import Sasl

  lemma UpperNames(v: Verb)
    requires !v.Other?
    ensures NoLower(NameOf(v)) && NameOf(v) != ""
  {
  }

  lemma TokenNames(v: Verb)
    requires !v.Other?
    ensures IsToken(NameOf(v))
  {
    UpperNames(v);
    UpperWithoutSpace(v);
  }

  lemma UpperWithoutSpace(v: Verb)
    requires !v.Other?
    ensures forall i :: 0 <= i < |NameOf(v)| ==> !IsSpace(NameOf(v)[i])
  {
  }

  lemma ParsedNames(v: Verb)
    requires !v.Other?
    ensures ParseVerb(NameOf(v)) == v
  {
    hide NameOf;
    NamedLiterally(v);
    ListingVerbs();
    MessageVerbs();
    PlainVerbs();
    LoginVerbs();
    OtherVerbs();
  }

  lemma NamedLiterally(v: Verb)
    ensures match v
            case CAPA => NameOf(v) == "CAPA" case USER => NameOf(v) == "USER" case PASS => NameOf(v) == "PASS"
            case AUTH => NameOf(v) == "AUTH" case STLS => NameOf(v) == "STLS" case QUIT => NameOf(v) == "QUIT"
            case UTF8 => NameOf(v) == "UTF8" case LANG => NameOf(v) == "LANG" case LAST => NameOf(v) == "LAST"
            case STAT => NameOf(v) == "STAT" case LIST => NameOf(v) == "LIST" case UIDL => NameOf(v) == "UIDL"
            case RETR => NameOf(v) == "RETR" case TOP => NameOf(v) == "TOP" case DELE => NameOf(v) == "DELE"
            case RSET => NameOf(v) == "RSET" case NOOP => NameOf(v) == "NOOP" case Other(name) => true
  {
  }

  lemma OtherVerbs()
    ensures ParseVerb("CAPA") == CAPA && ParseVerb("STLS") == STLS && ParseVerb("UTF8") == UTF8
    ensures ParseVerb("LANG") == LANG && ParseVerb("LAST") == LAST
  {
  }

  /** The names of verbs are in upper case and belong to one verb each. */
  lemma NamesAreUpper(v: Verb)
    requires !v.Other?
    ensures ToUpper(NameOf(v)) == NameOf(v) && ParseVerb(NameOf(v)) == v && IsToken(NameOf(v))
  {
    hide NameOf, ParseVerb, ToUpper, IsToken;
    UpperNames(v);
    TokenNames(v);
    ParsedNames(v);
    UpperAlready(NameOf(v));
  }

  /** A name is parsed as a verb of the protocol exactly when it differs from the verb's name only
      in case. */
  lemma VerbExactly(name: string, v: Verb)
    requires !v.Other?
    ensures ParseVerb(ToUpper(name)) == v <==> SameLetters(name, NameOf(v))
  {
    hide ParseVerb, NameOf, SameLetters, ToUpper;
    NamesAreUpper(v);
    UpperExactly(name, NameOf(v));
    VerbNames(ToUpper(name));
  }

  /** So a line has the verb exactly when its first word does. */
  lemma LineVerbExactly(line: string, v: Verb)
    requires !v.Other?
    ensures ParseCommand(line).verb == v <==> SameLetters(SplitCommand(line).0, NameOf(v))
  {
    hide ParseVerb, NameOf, SameLetters, ToUpper, SplitCommand;
    VerbExactly(SplitCommand(line).0, v);
  }

  /** A client may write a verb in any case: the server takes the line for the same command. */
  lemma VerbInAnyCase(v: Verb, name: string, args: seq<string>)
    requires !v.Other? && SameLetters(name, NameOf(v)) && IsToken(name) && AllTokens(args)
    ensures var line := CommandLine(name, args);
            line != "" && TrimSpace(line) == line && ParseCommand(line) == Command(v, args, Join(args))
  {
    hide ParseVerb, NameOf, SameLetters, ToUpper, ParseCommand, TrimSpace, IsToken;
    ParseWords(name, args);
    VerbExactly(name, v);
  }

  /** A name is on a list exactly when it is there in some case. */
  lemma ContainsExactly(names: seq<string>, name: string)
    ensures Contains(names, name) <==> exists i :: 0 <= i < |names| && SameLetters(names[i], name)
  {
    hide ToUpper, SameLetters;
    forall i | 0 <= i < |names|
      ensures EqualFold(names[i], name) <==> SameLetters(names[i], name)
    {
      UpperExactly(names[i], name);
    }
  }

  /** The mechanism of AUTH, and the mechanisms of the session, count in any case: exactly when one
      of each is PLAIN the exchange goes on, from the initial response or by the prompt. */
  lemma MechanismInAnyCase(cfg: Config, st: ConnState, args: seq<string>, env: Env)
    requires AuthAllowed(cfg, st) && env.session.mechanisms.Some? && args != []
    ensures var names := env.session.mechanisms.value;
            HandleAuth(cfg, st, args, env) ==
            if SameLetters(args[0], "PLAIN") && exists i :: 0 <= i < |names| && SameLetters(names[i], "PLAIN") then
              if |args| > 1 then FinishAuth(cfg, st, args[1], env) else Prompted(cfg, st, env)
            else ClientError(cfg, st, BadMechanism)
  {
    hide ToUpper, SameLetters, FinishAuth, Prompted, Contains;
    UpperExactly(args[0], "PLAIN");
    UpperAlready("PLAIN");
    ContainsExactly(env.session.mechanisms.value, "PLAIN");
  }
}
