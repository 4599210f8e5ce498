/** Command lines as a client writes them and a server parses them. */
module Requests {
  import opened Text
  import opened Protocol

  predicate AllTokens(ts: seq<string>) {
    forall i :: 0 <= i < |ts| ==> IsToken(ts[i])
  }

  /** A verb and its arguments with single spaces between. */
  function CommandLine(name: string, args: seq<string>): string {
    if args == [] then name else name + " " + Join(args)
  }

  predicate NoLower(name: string) {
    forall i :: 0 <= i < |name| ==> !('a' <= name[i] <= 'z')
  }

  lemma TokenEnds(t: string)
    requires IsToken(t)
    ensures !IsSpace(t[0]) && !IsSpace(t[|t| - 1])
  {
    assert t[0] in t && t[|t| - 1] in t;
  }

  lemma {:induction false} JoinEnds(ts: seq<string>)
    requires ts != [] && AllTokens(ts)
    ensures Join(ts) != "" && !IsSpace(Join(ts)[0]) && !IsSpace(Join(ts)[|Join(ts)| - 1])
  {
    TokenEnds(ts[0]);
    if |ts| > 1 {
      JoinEnds(ts[1..]);
      var j := Join(ts[1..]);
      assert Join(ts) == ts[0] + " " + j;
      assert Join(ts)[|Join(ts)| - 1] == j[|j| - 1];
    }
  }

  /** The server takes such a line apart into exactly its first word and the others. */
  lemma ParseWords(name: string, args: seq<string>)
    requires IsToken(name) && AllTokens(args)
    ensures var line := CommandLine(name, args);
            && line != "" && TrimSpace(line) == line
            && SplitCommand(line).0 == name
            && ParseCommand(line) == Command(ParseVerb(ToUpper(name)), args, Join(args))
  {
    var line := CommandLine(name, args);
    hide ParseVerb, ToUpper;
    TokenEnds(name);
    SplitCommandOf(name, Join(args));
    assert forall t :: t in args ==> IsToken(t);
    FieldsOfJoin(args);
    if args == [] {
      assert Fields("") == [];
    } else {
      JoinEnds(args);
      assert line[|line| - 1] == Join(args)[|Join(args)| - 1];
    }
    TrimmedAlready(line);
  }

  /** A name without lower-case letters is the verb itself. */
  lemma ParseCommandLine(name: string, args: seq<string>)
    requires IsToken(name) && NoLower(name) && AllTokens(args)
    ensures var line := CommandLine(name, args);
            && line != "" && TrimSpace(line) == line
            && ParseCommand(line) == Command(ParseVerb(name), args, Join(args))
  {
    hide ParseVerb, ToUpper, ParseCommand, TrimSpace, IsToken;
    ParseWords(name, args);
    UpperAlready(name);
  }

  /** The verbs of the client's calls are parsed as what they are. */
  lemma ListingVerbs()
    ensures ParseVerb("STAT") == STAT && ParseVerb("LIST") == LIST && ParseVerb("UIDL") == UIDL
  {
  }

  lemma MessageVerbs()
    ensures ParseVerb("RETR") == RETR && ParseVerb("TOP") == TOP && ParseVerb("DELE") == DELE
  {
  }

  lemma PlainVerbs()
    ensures ParseVerb("RSET") == RSET && ParseVerb("NOOP") == NOOP && ParseVerb("QUIT") == QUIT
  {
  }

  lemma LoginVerbs()
    ensures ParseVerb("USER") == USER && ParseVerb("PASS") == PASS && ParseVerb("AUTH") == AUTH
  {
  }
}
