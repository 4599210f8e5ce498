/** Where the header block of a message ends: at its first blank line, exactly when that line's
    ending is the one the truncation looks for first. */
module HeaderBoundary {
  import opened Lines
  import opened Top

  /** An empty line ends just before `h`: an LF that follows an LF, with or without a CR between
      them, or that stands at the start. */
  predicate BlankEndsAt(data: string, h: nat)
    requires h <= |data|
  {
    h > 0 && data[h - 1] == '\n' &&
    (h == 1 || data[h - 2] == '\n' || (data[h - 2] == '\r' && (h == 2 || data[h - 3] == '\n')))
  }

  predicate FirstBlankEnd(data: string, h: nat) {
    h <= |data| && BlankEndsAt(data, h) && forall k :: 0 <= k < h ==> !BlankEndsAt(data, k)
  }

  predicate EndsWith(s: string, pattern: string) {
    |s| >= |pattern| && s[|s| - |pattern|..] == pattern
  }

  lemma FoundBlank(data: string, i: nat)
    requires i <= |data|
    ensures BLANK <= data[i..] ==> i + 4 <= |data| && BlankEndsAt(data, i + 4) && EndsWith(data[..i + 4], BLANK)
    ensures "\n\n" <= data[i..] ==> i + 2 <= |data| && BlankEndsAt(data, i + 2) && EndsWith(data[..i + 2], "\n\n")
  {
    if BLANK <= data[i..] {
      assert data[i..][1] == '\n' && data[i..][2] == '\r' && data[i..][3] == '\n';
      assert data[..i + 4][i..] == data[i..][..4];
    }
    if "\n\n" <= data[i..] {
      assert data[i..][0] == '\n' && data[i..][1] == '\n';
      assert data[..i + 2][i..] == data[i..][..2];
    }
  }

  lemma EndFound(data: string, h: nat, pattern: string)
    requires h <= |data| && EndsWith(data[..h], pattern)
    ensures pattern <= data[h - |pattern|..]
  {
    assert data[h - |pattern|..][..|pattern|] == data[..h][h - |pattern|..];
  }

  /** The header block ends at the first blank line if and only if that line ends CRLFCRLF, or
      ends LFLF in a message without CRLFCRLF. */
  lemma HeaderEndsAtFirstBlank(data: string, h: nat)
    requires FirstBlankEnd(data, h)
    ensures HeaderLength(data) == Some(h) <==>
            EndsWith(data[..h], BLANK) || (EndsWith(data[..h], "\n\n") && Find(data, BLANK) == None)
  {
    hide Find, BlankEndsAt;
    var crlf, lf := Find(data, BLANK), Find(data, "\n\n");
    if crlf.Some? {
      FoundBlank(data, crlf.value);
    }
    if lf.Some? {
      FoundBlank(data, lf.value);
    }
    if EndsWith(data[..h], BLANK) {
      EndFound(data, h, BLANK);
    }
    if EndsWith(data[..h], "\n\n") {
      EndFound(data, h, "\n\n");
    }
  }

  /** Without a blank line there is no header boundary. */
  lemma NoBlankNoHeader(data: string)
    requires forall k :: 0 <= k <= |data| ==> !BlankEndsAt(data, k)
    ensures HeaderLength(data) == None
  {
    hide Find;
    var crlf, lf := Find(data, BLANK), Find(data, "\n\n");
    if crlf.Some? {
      FoundBlank(data, crlf.value);
    }
    if lf.Some? {
      FoundBlank(data, lf.value);
    }
  }

  const MIXED := "a\n\nb\r\n\r\n"

  lemma MixedFirstBlank()
    ensures FirstBlankEnd(MIXED, 3)
  {
    assert MIXED[0] == 'a' && MIXED[1] == '\n' && MIXED[2] == '\n';
    assert BlankEndsAt(MIXED, 3);
    assert !BlankEndsAt(MIXED, 0) && !BlankEndsAt(MIXED, 1) && !BlankEndsAt(MIXED, 2);
  }

  lemma MixedFound()
    ensures Find(MIXED, BLANK) == Some(4)
  {
    hide Find;
    assert MIXED[0] == 'a' && MIXED[1] == '\n' && MIXED[2] == '\n' && MIXED[3] == 'b';
    assert MIXED[4..] == BLANK;
    forall k | 0 <= k < 4
      ensures !(BLANK <= MIXED[k..])
    {
      assert MIXED[k..][0] == MIXED[k] && BLANK[0] == '\r';
    }
    FindUnique(MIXED, BLANK, 4);
  }

  /** A message with mixed line endings where it does not: the first blank line ends at 3, but
      the headers are taken to reach to the CRLFCRLF behind it. */
  lemma MixedEndings()
    ensures FirstBlankEnd(MIXED, 3) && HeaderLength(MIXED) == Some(8)
  {
    hide Find, FirstBlankEnd;
    MixedFirstBlank();
    MixedFound();
  }
}
