/** SASL PLAIN (section 2 of RFC 4616): identity, username and password separated by NUL. */
module Sasl {
  import opened Lines
  import opened Text
  import Base64

  const NUL := '\0'

  function IndexNul(s: string): (i: nat)
    ensures i <= |s|
    ensures forall k :: 0 <= k < i ==> s[k] != NUL
    ensures i < |s| ==> s[i] == NUL
  {
    if s == "" || s[0] == NUL then 0 else 1 + IndexNul(s[1..])
  }

  /** The parts between the NULs. */
  function Split(s: string): (parts: seq<string>)
    decreases |s|
  {
    var i := IndexNul(s);
    if i == |s| then [s] else [s[..i]] + Split(s[i + 1..])
  }

  function JoinNul(parts: seq<string>): string {
    if parts == [] then ""
    else if |parts| == 1 then parts[0]
    else parts[0] + [NUL] + JoinNul(parts[1..])
  }

  lemma IndexNulOf(s: string, i: nat)
    requires i <= |s|
    requires forall k :: 0 <= k < i ==> s[k] != NUL
    requires i < |s| ==> s[i] == NUL
    ensures IndexNul(s) == i
  {
  }

  /** One way round: every string is its parts joined, and no part contains NUL. */
  lemma {:induction false} JoinSplit(s: string)
    ensures Split(s) != [] && JoinNul(Split(s)) == s
    ensures forall p :: p in Split(s) ==> NUL !in p
    decreases |s|
  {
    var i := IndexNul(s);
    assert NUL !in s[..i];
    hide Split, IndexNul;
    SplitStep(s);
    if i < |s| {
      CutAt(s, i);
      JoinSplit(s[i + 1..]);
      JoinCons(s[..i], Split(s[i + 1..]));
    }
  }

  lemma SplitStep(s: string)
    ensures var i := IndexNul(s);
            if i == |s| then Split(s) == [s] else Split(s) == [s[..i]] + Split(s[i + 1..])
  {
    hide IndexNul;
  }

  lemma CutAt(s: string, i: nat)
    requires i < |s|
    ensures s == s[..i] + [s[i]] + s[i + 1..]
  {
  }

  lemma JoinCons(part: string, parts: seq<string>)
    requires parts != []
    ensures JoinNul([part] + parts) == part + [NUL] + JoinNul(parts)
  {
    assert ([part] + parts)[1..] == parts;
  }

  lemma SplitCons(part: string, rest: string)
    requires NUL !in part
    ensures Split(part + [NUL] + rest) == [part] + Split(rest)
    ensures Split(part) == [part]
  {
    var s := part + [NUL] + rest;
    assert s[..|part|] == part;
    IndexNulOf(s, |part|);
    assert s[|part| + 1..] == rest;
    assert part[..|part|] == part;
    IndexNulOf(part, |part|);
  }

  /** The other way round: parts without NUL are recovered from their join. */
  lemma {:induction false} SplitJoin(parts: seq<string>)
    requires parts != []
    requires forall p :: p in parts ==> NUL !in p
    ensures Split(JoinNul(parts)) == parts
  {
    if |parts| == 1 {
      SplitCons(parts[0], "");
    } else {
      SplitJoin(parts[1..]);
      SplitCons(parts[0], JoinNul(parts[1..]));
    }
  }

  /** Splitting distributes over a NUL, wherever the other NULs are. */
  lemma {:induction false} SplitAt(a: string, b: string)
    ensures Split(a + [NUL] + b) == Split(a) + Split(b)
    decreases |a|
  {
    var i := IndexNul(a);
    if i == |a| {
      assert a[..i] == a;
      SplitCons(a, b);
    } else {
      var p, a' := a[..i], a[i + 1..];
      calc {
        Split(a + [NUL] + b);
        { assert a + [NUL] + b == p + [NUL] + (a' + [NUL] + b); }
        Split(p + [NUL] + (a' + [NUL] + b));
        { SplitCons(p, a' + [NUL] + b); }
        [p] + Split(a' + [NUL] + b);
        { SplitAt(a', b); }
        [p] + (Split(a') + Split(b));
        ([p] + Split(a')) + Split(b);
      }
    }
  }

  lemma NextByte(parts: seq<string>, current: string, data: string, i: nat)
    requires i < |data| && NUL !in current
    ensures parts + Split(current + data[i..]) ==
            if data[i] == NUL then (parts + [current]) + Split("" + data[i + 1..])
            else parts + Split((current + [data[i]]) + data[i + 1..])
  {
    hide Split, IndexNul;
    if data[i] == NUL {
      assert current + data[i..] == current + [NUL] + data[i + 1..];
      SplitCons(current, data[i + 1..]);
      assert "" + data[i + 1..] == data[i + 1..];
      assert parts + ([current] + Split(data[i + 1..])) == (parts + [current]) + Split(data[i + 1..]);
    } else {
      assert current + data[i..] == (current + [data[i]]) + data[i + 1..];
    }
  }

  /** The byte-wise loop computes the parts. */
  method SplitNull(data: string) returns (parts: seq<string>)
    ensures parts == Split(data)
  {
    hide Split, IndexNul;
    parts := [];
    var current := "";
    var i := 0;
    assert "" + data[0..] == data;
    while i < |data|
      invariant i <= |data|
      invariant NUL !in current
      invariant Split(data) == parts + Split(current + data[i..])
    {
      NextByte(parts, current, data, i);
      if data[i] == NUL {
        parts := parts + [current];
        current := "";
      } else {
        current := current + [data[i]];
      }
      i := i + 1;
    }
    assert current + data[i..] == current;
    SplitCons(current, "");
    parts := parts + [current];
  }

  datatype Credentials = Credentials(identity: string, username: string, password: string)

  function DecodePlain(encoded: string): Option<Credentials> {
    match Base64.Decode(encoded)
    case None => None
    case Some(decoded) =>
      var parts := Split(decoded);
      if |parts| != 3 || ContainsCTL(parts[0]) || ContainsCTL(parts[1]) then None
      else Some(Credentials(parts[0], parts[1], parts[2]))
  }

  /** Decoding with the loops of the program: what is not base64, and what decodes to anything but
      deliverable credentials, is refused, and nothing else is. */
  method Decode(encoded: string) returns (r: Option<Credentials>)
    ensures r == DecodePlain(encoded)
    ensures !Base64.Shaped(Sanitize(encoded)) ==> r == None
    ensures forall c :: r == Some(c) <==> Base64.Decode(encoded) == Some(Payload(c)) && Deliverable(c)
  {
    hide Base64.Decode, Base64.Shaped, Split, ContainsCTL, Payload, Deliverable, DecodePlain;
    Base64.DecodesExactly(encoded);
    forall c
      ensures DecodePlain(encoded) == Some(c) <==> Base64.Decode(encoded) == Some(Payload(c)) && Deliverable(c)
    {
      DecodesExactly(encoded, c);
    }
    PlainSteps(encoded);
    var decoded := Base64.Decode(encoded);
    if decoded.None? {
      return None;
    }
    var parts := SplitNull(decoded.value);
    if |parts| != 3 {
      return None;
    }
    if ContainsCTL(parts[0]) || ContainsCTL(parts[1]) {
      return None;
    }
    r := Some(Credentials(parts[0], parts[1], parts[2]));
  }

  function Payload(c: Credentials): string {
    c.identity + [NUL] + c.username + [NUL] + c.password
  }

  predicate Deliverable(c: Credentials) {
    !ContainsCTL(c.identity) && !ContainsCTL(c.username) && NUL !in c.password
  }

  lemma SplitParts(s: string)
    ensures |Split(s)| >= 1
    ensures |Split(s)| == 1 <==> NUL !in s
    ensures |Split(s)| == 1 ==> Split(s) == [s]
  {
    var i := IndexNul(s);
    assert s == s[..i] + s[i..];
    if i < |s| {
      JoinSplit(s[i + 1..]);
    } else {
      assert s[..i] == s;
    }
  }

  /** The server recovers exactly the credentials the client encoded when the identity and
      username have no control character and the password no NUL, and rejects all others. */
  lemma PlainRoundTrip(c: Credentials)
    requires Base64.IsBytes(Payload(c))
    ensures DecodePlain(Base64.Encode(Payload(c))) == if Deliverable(c) then Some(c) else None
  {
    hide Split, Base64.Encode, Base64.Decode, ContainsCTL;
    Base64.RoundTrip(Payload(c));
    assert Payload(c) == c.identity + [NUL] + (c.username + [NUL] + c.password);
    SplitAt(c.identity, c.username + [NUL] + c.password);
    SplitAt(c.username, c.password);
    SplitParts(c.identity);
    SplitParts(c.username);
    SplitParts(c.password);
    NulIsControl(c.identity);
    NulIsControl(c.username);
  }

  lemma NulIsControl(s: string)
    ensures NUL in s ==> ContainsCTL(s)
  {
    if NUL in s {
      var i :| 0 <= i < |s| && s[i] == NUL;
      assert IsControl(s[i]);
    }
  }

  lemma PlainSteps(encoded: string)
    ensures match Base64.Decode(encoded)
            case None => DecodePlain(encoded) == None
            case Some(decoded) =>
              var parts := Split(decoded);
              if |parts| != 3 || ContainsCTL(parts[0]) || ContainsCTL(parts[1]) then DecodePlain(encoded) == None
              else DecodePlain(encoded) == Some(Credentials(parts[0], parts[1], parts[2]))
  {
    hide Base64.Decode, Split, ContainsCTL;
  }

  /** Credentials come of a response exactly when it decodes to their payload and they can be
      delivered. */
  lemma DecodesExactly(encoded: string, c: Credentials)
    ensures DecodePlain(encoded) == Some(c) <==> Base64.Decode(encoded) == Some(Payload(c)) && Deliverable(c)
  {
    hide Base64.Decode, Split, ContainsCTL, DecodePlain, JoinNul;
    PlainSteps(encoded);
    if Deliverable(c) {
      PayloadSplits(c);
    }
    if Base64.Decode(encoded).Some? && |Split(Base64.Decode(encoded).value)| == 3 {
      ThreeParts(Base64.Decode(encoded).value);
    }
  }

  lemma ThreeParts(s: string)
    requires |Split(s)| == 3
    ensures var parts := Split(s);
            && s == Payload(Credentials(parts[0], parts[1], parts[2]))
            && NUL !in parts[0] && NUL !in parts[1] && NUL !in parts[2]
  {
    hide Split;
    JoinSplit(s);
    var parts := Split(s);
    assert parts == [parts[0], parts[1], parts[2]];
    assert parts[1..][1..] == [parts[2]] && parts[1..] == [parts[1], parts[2]];
    assert JoinNul([parts[2]]) == parts[2];
    assert JoinNul([parts[1], parts[2]]) == parts[1] + [NUL] + parts[2];
    assert parts[0] + [NUL] + (parts[1] + [NUL] + parts[2]) == parts[0] + [NUL] + parts[1] + [NUL] + parts[2];
    assert parts[0] in parts && parts[1] in parts && parts[2] in parts;
  }

  lemma PayloadSplits(c: Credentials)
    requires Deliverable(c)
    ensures Split(Payload(c)) == [c.identity, c.username, c.password]
  {
    hide Split, ContainsCTL;
    NulIsControl(c.identity);
    NulIsControl(c.username);
    assert Payload(c) == c.identity + [NUL] + (c.username + [NUL] + c.password);
    SplitCons(c.identity, c.username + [NUL] + c.password);
    SplitCons(c.username, c.password);
    SplitCons(c.password, "");
  }
}
