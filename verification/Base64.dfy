/** The standard base64 encoding with padding (section 4 of RFC 4648). */
module Base64 {
  import opened Lines
  import opened Text

  predicate IsBytes(s: string) {
    forall i :: 0 <= i < |s| ==> s[i] as int < 256
  }

  type Sextet = v: nat | v < 64

  function Symbol(v: Sextet): char {
    if v < 26 then ('A' as int + v) as char
    else if v < 52 then ('a' as int + v - 26) as char
    else if v < 62 then ('0' as int + v - 52) as char
    else if v == 62 then '+' else '/'
  }

  function Index(c: char): Option<Sextet> {
    if 'A' <= c <= 'Z' then Some(c as int - 'A' as int)
    else if 'a' <= c <= 'z' then Some(c as int - 'a' as int + 26)
    else if '0' <= c <= '9' then Some(c as int - '0' as int + 52)
    else if c == '+' then Some(62)
    else if c == '/' then Some(63)
    else None
  }

  function Encode(s: string): (r: string)
    requires IsBytes(s)
    decreases |s|
  {
    if s == "" then ""
    else
      var a := s[0] as int;
      if |s| == 1 then [Symbol(a / 4), Symbol(a % 4 * 16)] + "=="
      else
        var b := s[1] as int;
        if |s| == 2 then [Symbol(a / 4), Symbol(a % 4 * 16 + b / 16), Symbol(b % 16 * 4)] + "="
        else
          var c := s[2] as int;
          [Symbol(a / 4), Symbol(a % 4 * 16 + b / 16), Symbol(b % 16 * 4 + c / 64), Symbol(c % 64)]
          + Encode(s[3..])
  }

  function Byte1(v0: Sextet, v1: Sextet): char { (v0 * 4 + v1 / 16) as char }

  function Byte2(v1: Sextet, v2: Sextet): char { (v1 % 16 * 16 + v2 / 4) as char }

  function Byte3(v2: Sextet, v3: Sextet): char { (v2 % 4 * 64 + v3) as char }

  /** Decoding in groups of four; padding only in the last group, its spare bits ignored. */
  function DecodeQuads(s: string): Option<string>
    decreases |s|
  {
    if s == "" then Some("")
    else if |s| < 4 || Index(s[0]).None? || Index(s[1]).None? then None
    else
      var v0, v1 := Index(s[0]).value, Index(s[1]).value;
      if s[2] == '=' then
        if s[3] == '=' && |s| == 4 then Some([Byte1(v0, v1)]) else None
      else if Index(s[2]).None? then None
      else
        var v2 := Index(s[2]).value;
        if s[3] == '=' then
          if |s| == 4 then Some([Byte1(v0, v1), Byte2(v1, v2)]) else None
        else if Index(s[3]).None? then None
        else
          match DecodeQuads(s[4..])
          case None => None
          case Some(rest) => Some([Byte1(v0, v1), Byte2(v1, v2), Byte3(v2, Index(s[3]).value)] + rest)
  }

  /** The decoder skips CR and LF wherever they stand. */
  function Decode(s: string): Option<string> {
    DecodeQuads(Sanitize(s))
  }

  lemma IndexOfSymbol(v: Sextet)
    ensures Index(Symbol(v)) == Some(v)
    ensures !IsSpace(Symbol(v)) && Symbol(v) != '='
  {
  }

  lemma Regroup(a: nat, b: nat, c: nat)
    requires a < 256 && b < 256 && c < 256
    ensures Byte1(a / 4, a % 4 * 16 + b / 16) as int == a
    ensures Byte2(a % 4 * 16 + b / 16, b % 16 * 4 + c / 64) as int == b
    ensures Byte3(b % 16 * 4 + c / 64, c % 64) as int == c
  {
  }

  lemma DecodeGroup(v0: Sextet, v1: Sextet, v2: Sextet, v3: Sextet, rest: string)
    ensures DecodeQuads([Symbol(v0), Symbol(v1)] + "==") == Some([Byte1(v0, v1)])
    ensures DecodeQuads([Symbol(v0), Symbol(v1), Symbol(v2)] + "=") == Some([Byte1(v0, v1), Byte2(v1, v2)])
    ensures DecodeQuads(rest).Some? ==>
              DecodeQuads([Symbol(v0), Symbol(v1), Symbol(v2), Symbol(v3)] + rest) ==
              Some([Byte1(v0, v1), Byte2(v1, v2), Byte3(v2, v3)] + DecodeQuads(rest).value)
  {
    IndexOfSymbol(v0);
    IndexOfSymbol(v1);
    IndexOfSymbol(v2);
    IndexOfSymbol(v3);
    assert ([Symbol(v0), Symbol(v1), Symbol(v2), Symbol(v3)] + rest)[4..] == rest;
  }

  lemma EncodedShort(s: string)
    requires IsBytes(s)
    ensures |s| == 1 ==>
              var a := s[0] as int; Encode(s) == [Symbol(a / 4), Symbol(a % 4 * 16)] + "=="
    ensures |s| == 2 ==>
              var a, b := s[0] as int, s[1] as int;
              Encode(s) == [Symbol(a / 4), Symbol(a % 4 * 16 + b / 16), Symbol(b % 16 * 4)] + "="
  {
    hide Symbol, DecodeQuads;
  }

  lemma OneByte(s: string)
    requires IsBytes(s) && |s| == 1
    ensures DecodeQuads(Encode(s)) == Some(s)
  {
    hide Encode, DecodeQuads, Symbol, Byte1, Byte2, Byte3;
    var a := s[0] as int;
    var v0: Sextet, v1: Sextet := a / 4, a % 4 * 16;
    EncodedShort(s);
    Regroup(a, 0, 0);
    DecodeGroup(v0, v1, 0, 0, "");
    assert s == [s[0]];
  }

  lemma TwoBytes(s: string)
    requires IsBytes(s) && |s| == 2
    ensures DecodeQuads(Encode(s)) == Some(s)
  {
    hide Encode, DecodeQuads, Symbol, Byte1, Byte2, Byte3;
    var a, b := s[0] as int, s[1] as int;
    var v0: Sextet, v1: Sextet, v2: Sextet := a / 4, a % 4 * 16 + b / 16, b % 16 * 4;
    EncodedShort(s);
    Regroup(a, b, 0);
    DecodeGroup(v0, v1, v2, 0, "");
    assert s == [s[0], s[1]];
  }

  lemma GroupOf(s: string)
    requires IsBytes(s) && |s| > 2
    ensures var a, b, c := s[0] as int, s[1] as int, s[2] as int;
            Encode(s) == [Symbol(a / 4), Symbol(a % 4 * 16 + b / 16), Symbol(b % 16 * 4 + c / 64),
                          Symbol(c % 64)] + Encode(s[3..])
  {
    hide DecodeQuads, Symbol;
  }

  lemma GroupRoundTrip(s: string)
    requires IsBytes(s) && |s| > 2 && DecodeQuads(Encode(s[3..])) == Some(s[3..])
    ensures DecodeQuads(Encode(s)) == Some(s)
  {
    hide Encode, DecodeQuads, Symbol, Byte1, Byte2, Byte3;
    var a, b, c := s[0] as int, s[1] as int, s[2] as int;
    var v0: Sextet, v1: Sextet := a / 4, a % 4 * 16 + b / 16;
    var v2: Sextet, v3: Sextet := b % 16 * 4 + c / 64, c % 64;
    GroupOf(s);
    Regroup(a, b, c);
    DecodeGroup(v0, v1, v2, v3, Encode(s[3..]));
    assert s == [s[0], s[1], s[2]] + s[3..];
  }

  lemma {:induction false} QuadsRoundTrip(s: string)
    requires IsBytes(s)
    ensures DecodeQuads(Encode(s)) == Some(s)
    decreases |s|
  {
    if |s| > 2 {
      QuadsRoundTrip(s[3..]);
      GroupRoundTrip(s);
    } else if |s| == 2 {
      TwoBytes(s);
    } else if |s| == 1 {
      OneByte(s);
    }
  }

  /** An encoding is free of whitespace. */
  lemma {:induction false} EncodedChars(s: string)
    requires IsBytes(s)
    ensures forall c :: c in Encode(s) ==> !IsSpace(c) && c != '*'
    decreases |s|
  {
    if |s| > 2 {
      EncodedChars(s[3..]);
    }
  }

  /** Decoding inverts encoding, for every byte string. */
  lemma RoundTrip(s: string)
    requires IsBytes(s)
    ensures Decode(Encode(s)) == Some(s)
  {
    EncodedChars(s);
    QuadsRoundTrip(s);
  }

  // ----- What is base64, and what is not -----

  /** The alphabet in its order: A to Z, a to z, 0 to 9, + and /. */
  lemma AlphabetInOrder(v: Sextet)
    ensures Symbol(0) == 'A' && Symbol(25) == 'Z' && Symbol(26) == 'a' && Symbol(51) == 'z'
    ensures Symbol(52) == '0' && Symbol(61) == '9' && Symbol(62) == '+' && Symbol(63) == '/'
    ensures v < 61 && v != 25 && v != 51 ==> Symbol(v + 1) as int == Symbol(v) as int + 1
  {
  }

  predicate InAlphabet(c: char) {
    'A' <= c <= 'Z' || 'a' <= c <= 'z' || '0' <= c <= '9' || c == '+' || c == '/'
  }

  /** The `=` at the end, as many as count. */
  function Padding(t: string): (p: nat)
    ensures p <= 2 && p <= |t|
  {
    if |t| >= 2 && t[|t| - 1] == '=' && t[|t| - 2] == '=' then 2
    else if |t| >= 1 && t[|t| - 1] == '=' then 1
    else 0
  }

  /** Groups of four characters of the alphabet, of which the last may be padded. */
  predicate Shaped(t: string) {
    |t| % 4 == 0 && forall i :: 0 <= i < |t| - Padding(t) ==> InAlphabet(t[i])
  }

  lemma IndexExactly(c: char)
    ensures Index(c).Some? <==> InAlphabet(c)
  {
  }

  /** One group of the decoder. */
  lemma GroupExactly(t: string)
    requires |t| == 4
    ensures DecodeQuads(t).Some? <==> Shaped(t)
    ensures DecodeQuads(t).Some? ==> |DecodeQuads(t).value| == 3 - Padding(t)
  {
    IndexExactly(t[0]);
    IndexExactly(t[1]);
    IndexExactly(t[2]);
    IndexExactly(t[3]);
    assert t[4..] == "" && DecodeQuads("") == Some("");
  }

  /** More than one group: the first is unpadded. */
  lemma FirstGroup(t: string)
    requires |t| > 4
    ensures var rest := DecodeQuads(t[4..]);
            && (DecodeQuads(t).Some? <==>
                  InAlphabet(t[0]) && InAlphabet(t[1]) && InAlphabet(t[2]) && InAlphabet(t[3]) && rest.Some?)
            && (DecodeQuads(t).Some? ==> |DecodeQuads(t).value| == 3 + |rest.value|)
  {
    IndexExactly(t[0]);
    IndexExactly(t[1]);
    IndexExactly(t[2]);
    IndexExactly(t[3]);
  }

  lemma ShapedLater(t: string)
    requires |t| >= 8
    ensures Padding(t) == Padding(t[4..])
    ensures Shaped(t) <==>
            InAlphabet(t[0]) && InAlphabet(t[1]) && InAlphabet(t[2]) && InAlphabet(t[3]) && Shaped(t[4..])
  {
    var u := t[4..];
    assert |t| % 4 == |u| % 4;
    if Shaped(t) {
      forall i | 0 <= i < |u| - Padding(u)
        ensures InAlphabet(u[i])
      {
        assert u[i] == t[i + 4];
      }
    }
    if Shaped(u) {
      forall i | 4 <= i < |t| - Padding(t)
        ensures InAlphabet(t[i])
      {
        assert t[i] == u[i - 4];
      }
    }
  }

  /** The decoder of groups accepts exactly what has the form, and three bytes come of every group
      less one for every padding character. */
  lemma {:induction false} QuadsExactly(t: string)
    ensures DecodeQuads(t).Some? <==> Shaped(t)
    ensures DecodeQuads(t).Some? ==> |DecodeQuads(t).value| == |t| / 4 * 3 - Padding(t)
    decreases |t|
  {
    if |t| < 4 {
      TooShort(t);
    } else if |t| == 4 {
      GroupExactly(t);
    } else if |t| < 8 {
      FirstGroup(t);
      TooShort(t[4..]);
    } else {
      hide DecodeQuads, Shaped, Padding, InAlphabet;
      FirstGroup(t);
      ShapedLater(t);
      QuadsExactly(t[4..]);
    }
  }

  lemma TooShort(t: string)
    requires |t| < 4
    ensures DecodeQuads(t).Some? <==> t == ""
    ensures Shaped(t) <==> t == ""
    ensures t == "" ==> DecodeQuads(t) == Some("") && Padding(t) == 0
  {
  }

  /** Decoding succeeds exactly on text that is base64 once its CRs and LFs are left out. */
  lemma DecodesExactly(s: string)
    ensures Decode(s).Some? <==> Shaped(Sanitize(s))
    ensures Decode(s).Some? ==> |Decode(s).value| == |Sanitize(s)| / 4 * 3 - Padding(Sanitize(s))
  {
    QuadsExactly(Sanitize(s));
  }
}
