/** Decimal numbers: the server's parser of message numbers, the printing of numbers on both
    sides and the client's parser of signed 64-bit numbers. */
module Numbers {
  import opened Lines
  import opened Text

  const MAX_INT32 := 0x7FFF_FFFF
  const MAX_INT64 := 0x7FFF_FFFF_FFFF_FFFF
  const MIN_INT64 := -0x8000_0000_0000_0000

  /** The machine's `int`: the arithmetic of the parser is checked not to overflow it. */
  newtype int64 = x: int | -0x8000_0000_0000_0000 <= x <= 0x7FFF_FFFF_FFFF_FFFF

  predicate IsDigit(c: char) {
    '0' <= c <= '9'
  }

  predicate AllDigits(s: string) {
    forall i :: 0 <= i < |s| ==> IsDigit(s[i])
  }

  function DigitValue(c: char): (d: nat)
    requires IsDigit(c)
    ensures d <= 9
  {
    c as int - '0' as int
  }

  function Digit(d: nat): (c: char)
    requires d <= 9
    ensures IsDigit(c) && DigitValue(c) == d
  {
    ('0' as int + d) as char
  }

  function Value(s: string): nat
    requires AllDigits(s)
  {
    if s == "" then 0 else 10 * Value(s[..|s| - 1]) + DigitValue(s[|s| - 1])
  }

  lemma {:induction false} ValuePrefix(s: string, n: nat)
    requires AllDigits(s) && n <= |s|
    ensures Value(s[..n]) <= Value(s)
  {
    if n < |s| {
      ValuePrefix(s[..|s| - 1], n);
      assert s[..|s| - 1][..n] == s[..n];
    } else {
      assert s[..n] == s;
    }
  }

  /** A message number or line count as the server reads it. */
  predicate IsNumber(s: string) {
    s != "" && AllDigits(s) && Value(s) <= MAX_INT32
  }

  /** The server's specification of a number argument. */
  function ParseNumber(s: string): Option<nat> {
    if IsNumber(s) then Some(Value(s)) else None
  }

  /** Accepts exactly the non-empty digit strings of value at most 2^31-1 and returns their
      value; the 64-bit accumulator stays within 10 * (2^31-1) + 9 throughout. */
  method ParseInt(s: string) returns (r: Option<int64>, ghost peak: int)
    ensures r.Some? <==> IsNumber(s)
    ensures r.Some? ==> r.value as int == Value(s)
    ensures peak <= 10 * MAX_INT32 + 9
  {
    peak := 0;
    if |s| == 0 {
      return None, peak;
    }
    var n: int64 := 0;
    var i := 0;
    assert s[..0] == "";
    while i < |s|
      invariant i <= |s|
      invariant AllDigits(s[..i])
      invariant 0 <= n as int <= MAX_INT32 && n as int == Value(s[..i])
      invariant peak <= 10 * MAX_INT32 + 9
    {
      var ch := s[i];
      if ch < '0' || ch > '9' {
        assert !IsDigit(s[i]);
        return None, peak;
      }
      assert s[..i + 1][..i] == s[..i];
      n := n * 10 + (ch as int - '0' as int) as int64;
      peak := if n as int > peak then n as int else peak;
      if n > 0x7FFF_FFFF {
        if AllDigits(s) {
          ValuePrefix(s, i + 1);
        }
        return None, peak;
      }
      i := i + 1;
    }
    assert s[..i] == s;
    r := Some(n);
  }

  // ----- Printing -----

  function Dec(n: nat): (s: string)
    ensures s != "" && AllDigits(s)
  {
    if n < 10 then [Digit(n)] else Dec(n / 10) + [Digit(n % 10)]
  }

  /** Printing of a possibly negative number. */
  function DecInt(n: int): string {
    if n < 0 then "-" + Dec(-n) else Dec(n)
  }

  lemma {:induction false} ValueOfDec(n: nat)
    ensures Value(Dec(n)) == n
  {
    if n < 10 {
      assert [Digit(n)][..0] == "";
    } else {
      ValueOfDec(n / 10);
      assert Dec(n)[..|Dec(n)| - 1] == Dec(n / 10);
    }
  }

  /** The server's parser inverts the client's printing of every number in range, and rejects
      every number out of range. */
  lemma ParseDec(n: int)
    ensures ParseNumber(DecInt(n)) == if 0 <= n <= MAX_INT32 then Some(n) else None
  {
    if n >= 0 {
      ValueOfDec(n);
    } else {
      assert !IsDigit(DecInt(n)[0]);
    }
  }

  lemma DecIsToken(n: int)
    ensures IsToken(DecInt(n))
    ensures DecInt(n)[0] != '.'
  {
  }

  function Pow10(k: nat): nat {
    if k == 0 then 1 else 10 * Pow10(k - 1)
  }

  lemma {:induction false} DecLength(n: nat, k: nat)
    requires k >= 1 && n < Pow10(k)
    ensures |Dec(n)| <= k
  {
    if n >= 10 {
      DecLength(n / 10, k - 1);
    }
  }

  lemma DecInt64Length(n: int)
    requires MIN_INT64 <= n <= MAX_INT64
    ensures |DecInt(n)| <= 20
  {
    var m: nat := if n < 0 then -n else n;
    assert Pow10(10) == 10_000_000_000;
    assert Pow10(19) == Pow10(10) * 1_000_000_000;
    DecLength(m, 19);
  }

  // ----- The client's parser -----

  /** A decimal number with an optional sign, within 64 bits. */
  function Atoi(s: string): Option<int> {
    var digits := if s != "" && (s[0] == '-' || s[0] == '+') then s[1..] else s;
    if digits == "" || !AllDigits(digits) then None
    else
      var v: int := if s[0] == '-' then 0 - Value(digits) else Value(digits);
      if MIN_INT64 <= v <= MAX_INT64 then Some(v) else None
  }

  /** Nothing but a non-empty run of digits, with at most one sign before it, is a number. */
  lemma AtoiRejects(s: string, i: nat)
    ensures Atoi("") == None && Atoi("-") == None && Atoi("+") == None
    ensures i < |s| && !IsDigit(s[i]) && !(i == 0 && (s[0] == '-' || s[0] == '+')) ==> Atoi(s) == None
  {
    assert "-"[1..] == "" && "+"[1..] == "";
    if i < |s| && i > 0 && !IsDigit(s[i]) {
      assert s[1..][i - 1] == s[i];
    }
  }

  /** The client's parser inverts the printing of every 64-bit number. */
  lemma AtoiOfDec(n: int)
    ensures Atoi(DecInt(n)) == if MIN_INT64 <= n <= MAX_INT64 then Some(n) else None
  {
    if n >= 0 {
      ValueOfDec(n);
    } else {
      ValueOfDec(-n);
      assert DecInt(n)[1..] == Dec(-n);
    }
  }
}
