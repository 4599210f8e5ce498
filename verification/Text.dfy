/** Command text: trimming, splitting and tokenising lines, restricted to ASCII whitespace. */
module Text {
  predicate IsSpace(c: char) {
    c == ' ' || '\t' <= c <= '\r'
  }

  predicate IsBlank(s: string) {
    forall c :: c in s ==> IsSpace(c)
  }

  /** A token: what a space-separated argument is. */
  predicate IsToken(s: string) {
    s != "" && forall c :: c in s ==> !IsSpace(c)
  }

  predicate IsControl(c: char) {
    c < ' ' || c == '\U{007F}'
  }

  predicate ContainsCTL(s: string) {
    exists i :: 0 <= i < |s| && IsControl(s[i])
  }

  /** What is free of control characters, by their codes. */
  lemma ControlExactly(s: string)
    ensures ContainsCTL(s) <==> !(forall i :: 0 <= i < |s| ==> 0x20 <= s[i] as int != 0x7F)
  {
    forall i | 0 <= i < |s|
      ensures IsControl(s[i]) <==> !(0x20 <= s[i] as int != 0x7F)
    {
    }
  }

  // ----- Trimming -----

  function TrimLeft(s: string): string {
    if s != "" && IsSpace(s[0]) then TrimLeft(s[1..]) else s
  }

  function TrimRight(s: string): string {
    if s != "" && IsSpace(s[|s| - 1]) then TrimRight(s[..|s| - 1]) else s
  }

  function TrimSpace(s: string): string {
    TrimRight(TrimLeft(s))
  }

  /** Text that starts and ends with a non-space is not trimmed. */
  lemma TrimmedAlready(s: string)
    requires s != "" ==> !IsSpace(s[0]) && !IsSpace(s[|s| - 1])
    ensures TrimSpace(s) == s
  {
  }

  lemma {:induction false} TrimRightPrefix(s: string)
    ensures TrimRight(s) <= s
    ensures IsBlank(s[|TrimRight(s)|..])
    ensures TrimRight(s) != "" ==> !IsSpace(TrimRight(s)[|TrimRight(s)| - 1])
  {
    if s != "" && IsSpace(s[|s| - 1]) {
      var t := s[..|s| - 1];
      TrimRightPrefix(t);
      assert s[|TrimRight(t)|..] == t[|TrimRight(t)|..] + [s[|s| - 1]];
    }
  }

  /** Trimming at the right passes over a prefix as long as something is left after it. */
  lemma {:induction false} TrimRightAfter(a: string, s: string)
    ensures TrimRight(s) != "" ==> TrimRight(a + s) == a + TrimRight(s)
    ensures TrimRight(s) == "" ==> TrimRight(a + s) == TrimRight(a)
  {
    if s == "" {
      assert a + s == a;
    } else if IsSpace(s[|s| - 1]) {
      assert (a + s)[..|a + s| - 1] == a + s[..|s| - 1];
      TrimRightAfter(a, s[..|s| - 1]);
    }
  }

  lemma {:induction false} TrimRightBlank(s: string)
    ensures TrimRight(s) == "" <==> IsBlank(s)
  {
    TrimRightPrefix(s);
    if TrimRight(s) == "" {
      assert s[0..] == s;
    } else {
      var t := TrimRight(s);
      assert t[|t| - 1] in s;
    }
  }

  // ----- Splitting the verb off -----

  /** The index of the first space or tab, or the length. */
  function VerbEnd(s: string): (i: nat)
    ensures i <= |s|
    ensures forall k :: 0 <= k < i ==> s[k] != ' ' && s[k] != '\t'
    ensures i < |s| ==> s[i] == ' ' || s[i] == '\t'
  {
    if s == "" || s[0] == ' ' || s[0] == '\t' then 0 else 1 + VerbEnd(s[1..])
  }

  /** The verb and the raw remainder of the line, one delimiter removed. */
  function SplitCommand(line: string): (string, string) {
    var i := VerbEnd(line);
    if i == |line| then (line, "") else (line[..i], line[i + 1..])
  }

  lemma SplitCommandOf(verb: string, arg: string)
    requires IsToken(verb)
    ensures SplitCommand(verb + " " + arg) == (verb, arg)
    ensures SplitCommand(verb) == (verb, "")
  {
    forall k | 0 <= k < |verb|
      ensures !IsSpace(verb[k])
    {
      assert verb[k] in verb;
    }
    VerbEndOf(verb + " " + arg, |verb|);
    VerbEndOf(verb, |verb|);
    var line := verb + " " + arg;
    assert line[..|verb|] == verb && line[|verb| + 1..] == arg;
  }

  lemma VerbEndOf(s: string, i: nat)
    requires i <= |s|
    requires forall k :: 0 <= k < i ==> s[k] != ' ' && s[k] != '\t'
    requires i < |s| ==> s[i] == ' ' || s[i] == '\t'
    ensures VerbEnd(s) == i
  {
  }

  // ----- Tokenising -----

  /** The length of the leading run of non-spaces. */
  function TokenEnd(s: string): (i: nat)
    ensures i <= |s|
    ensures forall k :: 0 <= k < i ==> !IsSpace(s[k])
    ensures i < |s| ==> IsSpace(s[i])
  {
    if s == "" || IsSpace(s[0]) then 0 else 1 + TokenEnd(s[1..])
  }

  /** The maximal runs of non-spaces, in order. */
  function Fields(s: string): (fs: seq<string>)
    ensures forall f :: f in fs ==> IsToken(f)
    decreases |s|
  {
    if s == "" then []
    else if IsSpace(s[0]) then Fields(s[1..])
    else [s[..TokenEnd(s)]] + Fields(s[TokenEnd(s)..])
  }

  lemma TokenEndOf(s: string, i: nat)
    requires i <= |s|
    requires forall k :: 0 <= k < i ==> !IsSpace(s[k])
    requires i < |s| ==> IsSpace(s[i])
    ensures TokenEnd(s) == i
  {
  }

  /** A token followed by a space, or by nothing, is the first field. */
  lemma FieldsCons(token: string, rest: string)
    requires IsToken(token)
    requires rest != "" ==> IsSpace(rest[0])
    ensures Fields(token + rest) == [token] + Fields(rest)
  {
    var s := token + rest;
    forall k | 0 <= k < |token|
      ensures !IsSpace(s[k])
    {
      assert token[k] in token;
    }
    TokenEndOf(s, |token|);
    assert s[0] == token[0];
    assert s[|token|..] == rest;
  }

  lemma FieldsOfToken(token: string)
    requires IsToken(token)
    ensures Fields(token) == [token]
  {
    FieldsCons(token, "");
    assert token + "" == token;
  }

  /** Tokens joined by single spaces. */
  function Join(ts: seq<string>): string {
    if ts == [] then ""
    else if |ts| == 1 then ts[0]
    else ts[0] + " " + Join(ts[1..])
  }

  lemma {:induction false} FieldsOfJoin(ts: seq<string>)
    requires forall t :: t in ts ==> IsToken(t)
    ensures Fields(Join(ts)) == ts
  {
    if |ts| == 1 {
      FieldsOfToken(ts[0]);
    } else if |ts| > 1 {
      FieldsOfJoin(ts[1..]);
      FieldsCons(ts[0], " " + Join(ts[1..]));
      assert Join(ts) == ts[0] + (" " + Join(ts[1..]));
      assert (" " + Join(ts[1..]))[1..] == Join(ts[1..]);
    }
  }

  /** For a trimmed line whose only whitespace is space and tab, the verb with the tokenised
      raw argument is the tokenised line. */
  lemma VerbAndFields(line: string)
    requires line != "" && TrimSpace(line) == line
    requires forall c :: c in line && IsSpace(c) ==> c == ' ' || c == '\t'
    ensures [SplitCommand(line).0] + Fields(SplitCommand(line).1) == Fields(line)
  {
    TrimmedStart(line);
    var i := VerbEnd(line);
    var verb := line[..i];
    assert !IsSpace(line[0]);
    assert IsToken(verb) by {
      forall c | c in verb
        ensures !IsSpace(c)
      {
        assert c in line;
      }
    }
    if i == |line| {
      assert verb == line;
      FieldsOfToken(line);
    } else {
      assert line == verb + line[i..];
      FieldsCons(verb, line[i..]);
      assert line[i..][1..] == line[i + 1..];
    }
  }

  lemma TrimmedStart(line: string)
    requires line != "" && TrimSpace(line) == line
    ensures !IsSpace(line[0]) && !IsSpace(line[|line| - 1])
  {
    TrimLeftShorter(line);
    TrimRightPrefix(TrimLeft(line));
  }

  lemma TrimLeftShorter(s: string)
    ensures |TrimLeft(s)| <= |s|
    ensures TrimLeft(s) != "" ==> !IsSpace(TrimLeft(s)[0])
    ensures |TrimLeft(s)| == |s| ==> TrimLeft(s) == s
  {
  }

  /** Trimming takes off whitespace at both ends, and all of it. */
  lemma {:induction false} TrimExactly(s: string) returns (before: string, after: string)
    ensures s == before + TrimSpace(s) + after && IsBlank(before) && IsBlank(after)
    ensures TrimSpace(s) != "" ==> !IsSpace(TrimSpace(s)[0]) && !IsSpace(TrimSpace(s)[|TrimSpace(s)| - 1])
  {
    before := LeftExactly(s);
    after := RightExactly(TrimLeft(s));
  }

  lemma {:induction false} LeftExactly(s: string) returns (before: string)
    ensures s == before + TrimLeft(s) && IsBlank(before)
    ensures TrimLeft(s) != "" ==> !IsSpace(TrimLeft(s)[0])
  {
    if s != "" && IsSpace(s[0]) {
      var more := LeftExactly(s[1..]);
      before := [s[0]] + more;
    } else {
      before := "";
    }
  }

  lemma {:induction false} RightExactly(s: string) returns (after: string)
    ensures s == TrimRight(s) + after && IsBlank(after)
    ensures TrimRight(s) != "" ==> TrimRight(s)[0] == s[0] && !IsSpace(TrimRight(s)[|TrimRight(s)| - 1])
  {
    if s != "" && IsSpace(s[|s| - 1]) {
      var more := RightExactly(s[..|s| - 1]);
      after := more + [s[|s| - 1]];
    } else {
      after := "";
    }
  }

  lemma FieldsCut(s: string)
    ensures s == "" ==> Fields(s) == []
    ensures s != "" && IsSpace(s[0]) ==> Fields(s) == Fields(s[1..])
    ensures s != "" && !IsSpace(s[0]) ==>
              TokenEnd(s) > 0 && Fields(s) == [s[..TokenEnd(s)]] + Fields(s[TokenEnd(s)..])
  {
  }

  lemma TokenEndBefore(a: string, c: char, b: string)
    requires IsSpace(c)
    ensures TokenEnd(a + [c] + b) == TokenEnd(a)
  {
    TokenEndOf(a + [c] + b, TokenEnd(a));
  }

  /** A space separates fields wherever it stands. */
  lemma {:induction false} FieldsAtSpace(a: string, c: char, b: string)
    requires IsSpace(c)
    ensures Fields(a + [c] + b) == Fields(a) + Fields(b)
    decreases |a|
  {
    hide Fields, TokenEnd;
    var s := a + [c] + b;
    FieldsCut(s);
    FieldsCut(a);
    if a == "" {
      assert s[1..] == b;
    } else if IsSpace(a[0]) {
      assert s[1..] == a[1..] + [c] + b;
      FieldsAtSpace(a[1..], c, b);
    } else {
      var i := TokenEnd(a);
      TokenEndBefore(a, c, b);
      assert s[..i] == a[..i] && s[i..] == a[i..] + [c] + b;
      FieldsAtSpace(a[i..], c, b);
    }
  }

  // ----- Case and sanitising -----

  function Upper(c: char): char {
    if 'a' <= c <= 'z' then (c as int - 32) as char else c
  }

  function ToUpper(s: string): (r: string)
    ensures |r| == |s|
    ensures forall i :: 0 <= i < |s| ==> r[i] == Upper(s[i])
  {
    if s == "" then "" else [Upper(s[0])] + ToUpper(s[1..])
  }

  lemma UpperAlready(s: string)
    requires forall i :: 0 <= i < |s| ==> !('a' <= s[i] <= 'z')
    ensures ToUpper(s) == s
  {
  }

  /** Two characters that are the same, or one ASCII letter in its two cases. */
  predicate SameLetter(a: char, b: char) {
    || a == b
    || ('a' <= a <= 'z' && b as int == a as int - 'a' as int + 'A' as int)
    || ('A' <= a <= 'Z' && b as int == a as int - 'A' as int + 'a' as int)
  }

  /** Two texts that differ only in the case of ASCII letters. */
  predicate SameLetters(a: string, b: string) {
    |a| == |b| && forall i :: 0 <= i < |a| ==> SameLetter(a[i], b[i])
  }

  /** Texts have the same upper-case form exactly when they differ only in case. */
  lemma {:induction false} UpperExactly(a: string, b: string)
    ensures ToUpper(a) == ToUpper(b) <==> SameLetters(a, b)
  {
    if SameLetters(a, b) {
      assert forall i :: 0 <= i < |a| ==> ToUpper(a)[i] == ToUpper(b)[i];
    }
    if ToUpper(a) == ToUpper(b) {
      forall i | 0 <= i < |a|
        ensures SameLetter(a[i], b[i])
      {
        assert Upper(a[i]) == ToUpper(a)[i] == ToUpper(b)[i] == Upper(b[i]);
      }
    }
  }

  /** A text without CR and LF cannot break out of its line. */
  predicate OneLine(s: string) {
    '\r' !in s && '\n' !in s
  }

  /** Session-supplied text loses its CRs and LFs before it is written into a line. */
  function Sanitize(s: string): (r: string)
    ensures OneLine(r)
    ensures OneLine(s) ==> r == s
    ensures |r| <= |s|
  {
    if s == "" then ""
    else if s[0] == '\r' || s[0] == '\n' then Sanitize(s[1..])
    else [s[0]] + Sanitize(s[1..])
  }

  /** It loses nothing else, and what is left keeps its order. */
  lemma {:induction false} SanitizeExactly(a: string, b: string, c: char)
    ensures Sanitize(a + b) == Sanitize(a) + Sanitize(b)
    ensures Sanitize([c]) == if c == '\r' || c == '\n' then "" else [c]
    decreases |a|
  {
    if a == "" {
      assert a + b == b;
    } else {
      assert (a + b)[1..] == a[1..] + b;
      SanitizeExactly(a[1..], b, c);
    }
    assert [c][1..] == "";
  }
}
