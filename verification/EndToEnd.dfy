/** Client and server together: for every sequence of client calls on an authenticated
    connection to an in-memory maildrop, the client's results are those of an abstract
    maildrop, a snapshot with a set of marks, and its reader stays in step with the server. */
module EndToEnd {
  import opened Lines
  import opened Numbers
  import opened Protocol
  import opened Maildrop
  import opened ClientReplies
  import opened Dialogue
  import opened ServerSide
  import opened ClientSide

  lemma CallsSnoc(msgs: seq<Message>, mail: Mail, calls: seq<Call>, x: Call)
    ensures AfterCalls(msgs, mail, calls + [x])
            == AfterCall(msgs, AfterCalls(msgs, mail, calls), x)
  {
    assert (calls + [x])[..|calls|] == calls;
  }

  /** How many more errors a call is. */
  function Cost(q: Request): nat {
    if Fault(q) then 1 else 0
  }

  /** One turn: the response to the call is sent and nothing else, the session's marks move as
      the maildrop's do, only a call with a number that is none counts as an error, and the
      server waits for the next command, except after QUIT. */
  lemma FeedOne(cfg: Config, msgs: seq<Message>, s: Server, q: Request, more: nat)
    requires Serving(cfg, s.run, more + Cost(q))
    ensures var s' := Feed(cfg, msgs, s, RequestLine(q));
            && s'.run.out == s.run.out + Render(Respond(cfg, msgs, s.mail, q))
            && s'.mail == MailAfter(msgs, s.mail, q)
            && s'.run.st.errorCount == s.run.st.errorCount + Cost(q)
            && (if q.Quit? then !s'.run.live else Serving(cfg, s'.run, more))
  {
    hide ParseCommand, Dispatch, CommandOf, Render, Respond, MailAfter, AfterCalls, Dialogue.MailSession;
    RequestParsed(q);
    var env := EnvOf(msgs, s.mail);
    var e := Dispatch(cfg, s.run.st, CommandOf(q), env);
    ServesEvery(cfg, msgs, s.mail, s.run.st, q, env);
    RenderNothing();
    var run := Step(cfg, s.run, Event(Received(RequestLine(q)), env));
    assert run == Advance(cfg, s.run, RequestLine(q), env, e);
    TurnCalls(cfg, msgs, s, RequestLine(q), env, e);
    assert "" + Render(e.response) == Render(e.response);
    assert s.run.out + Render(e.response) + "" == s.run.out + Render(e.response);
  }

  lemma TurnCalls(cfg: Config, msgs: seq<Message>, s: Server, line: string, env: Env, e: Effect)
    ensures var run := Advance(cfg, s.run, line, env, e);
            && |run.calls| >= |s.run.calls|
            && AfterCalls(msgs, s.mail, run.calls[|s.run.calls|..]) == AfterCalls(msgs, s.mail, e.calls)
  {
    hide AfterCalls, Render, RenderEffect;
    var run := Advance(cfg, s.run, line, env, e);
    CallsSnoc(msgs, s.mail, e.calls, CallClose);
    assert run.calls[|s.run.calls|..] == e.calls + if Ends(cfg, e, env.flushed) then [CallClose] else [];
    assert e.calls + [] == e.calls;
  }

  /** What the server has sent from one point of its run to a later one. */
  function Sent(s: Server, s': Server): string {
    if s.run.out <= s'.run.out then s'.run.out[|s.run.out|..] else ""
  }

  /** A conversation: only the last call may be Quit. */
  predicate Conversation(qs: seq<Request>) {
    && (forall i :: 0 <= i < |qs| ==> Is64Bit(qs[i]))
    && (forall i :: 0 <= i < |qs| - 1 ==> !qs[i].Quit?)
  }

  lemma FeedFirst(cfg: Config, msgs: seq<Message>, s: Server, q: Request, rest: string)
    requires Is64Bit(q) && cfg.maxLineLength >= 64
    ensures FeedBytes(cfg, msgs, s, RequestLine(q) + CRLF + rest)
            == FeedBytes(cfg, msgs, Feed(cfg, msgs, s, RequestLine(q)), rest)
  {
    hide RequestLine, Feed, NextLine;
    RequestShort(q);
    NextLineBack(cfg.maxLineLength, RequestLine(q), rest);
  }

  /** Refinement: for every conversation, from the bytes the client writes the server sends
      exactly the bytes from which the client, reading on call after call, gets the results of
      the abstract maildrop; it ends exactly at what follows, and the session's marks are the
      maildrop's, with the marks committed if the last call was Quit. */
  lemma {:induction false} Refinement(cfg: Config, msgs: seq<Message>, s: Server, qs: seq<Request>,
                                      lim: Limits, rest: string)
    requires WithinLimits(msgs, cfg, lim) && |s.mail.box| <= MAX_INT64
    requires Conversation(qs) && Serving(cfg, s.run, Faults(qs))
    ensures var s' := FeedBytes(cfg, msgs, s, RequestBytes(qs));
            && s'.run.out == s.run.out + Sent(s, s')
            && ClientCalls(lim, qs, Sent(s, s') + rest)
               == Some((ExpectedCalls(msgs, s.mail, qs), rest))
            && s'.mail == FinalMail(msgs, s.mail, qs)
            && s'.run.st.errorCount == s.run.st.errorCount + Faults(qs)
            && (if qs != [] && qs[|qs| - 1].Quit? then !s'.run.live else Serving(cfg, s'.run, 0))
    decreases |qs|
  {
    hide WithinLimits, RequestLine, Feed, FeedBytes, ClientCall, Respond, Render, Expected, MailAfter;
    LimitFacts(msgs, cfg, lim);
    if qs == [] {
      NoInput(cfg, msgs, s);
      assert "" + rest == rest;
    } else {
      var q := qs[0];
      var s1 := Feed(cfg, msgs, s, RequestLine(q));
      var s' := FeedBytes(cfg, msgs, s, RequestBytes(qs));
      FeedFirst(cfg, msgs, s, q, RequestBytes(qs[1..]));
      FeedOne(cfg, msgs, s, q, Faults(qs[1..]));
      if |qs| == 1 {
        NoInput(cfg, msgs, s1);
        Agree(cfg, msgs, s.mail, lim, q, rest);
        assert qs[1..] == [];
      } else {
        BoxShrinks(msgs, s.mail, qs);
        Refinement(cfg, msgs, s1, qs[1..], lim, rest);
        var r := Render(Respond(cfg, msgs, s.mail, q));
        Agree(cfg, msgs, s.mail, lim, q, Sent(s1, s') + rest);
        assert s'.run.out == s.run.out + (r + Sent(s1, s'));
        assert Sent(s, s') == r + Sent(s1, s');
        assert Sent(s, s') + rest == r + (Sent(s1, s') + rest);
      }
    }
  }

  lemma NoInput(cfg: Config, msgs: seq<Message>, s: Server)
    ensures FeedBytes(cfg, msgs, s, "") == s
  {
  }

  lemma {:induction false} FeedBytesSplit(cfg: Config, msgs: seq<Message>, s: Server,
                                          a: seq<Request>, b: seq<Request>)
    requires cfg.maxLineLength >= 64 && forall i :: 0 <= i < |a| ==> Is64Bit(a[i])
    ensures FeedBytes(cfg, msgs, s, RequestBytes(a + b))
            == FeedBytes(cfg, msgs, FeedBytes(cfg, msgs, s, RequestBytes(a)), RequestBytes(b))
    decreases |a|
  {
    hide RequestLine, Feed, FeedBytes;
    if a == [] {
      NoInput(cfg, msgs, s);
      assert a + b == b;
    } else {
      assert (a + b)[1..] == a[1..] + b;
      FeedFirst(cfg, msgs, s, a[0], RequestBytes(a[1..] + b));
      FeedFirst(cfg, msgs, s, a[0], RequestBytes(a[1..]));
      FeedBytesSplit(cfg, msgs, Feed(cfg, msgs, s, RequestLine(a[0])), a[1..], b);
    }
  }

  /** In step: after any number of the calls the client has exactly the results so far and
      stands at the start of the response to the next call. */
  lemma InStep(cfg: Config, msgs: seq<Message>, s: Server, qs: seq<Request>, k: nat,
               lim: Limits, rest: string)
    requires WithinLimits(msgs, cfg, lim) && |s.mail.box| <= MAX_INT64
    requires Conversation(qs) && Serving(cfg, s.run, Faults(qs)) && k <= |qs|
    ensures var now := FeedBytes(cfg, msgs, s, RequestBytes(qs[..k]));
            var end := FeedBytes(cfg, msgs, s, RequestBytes(qs));
            ClientCalls(lim, qs[..k], Sent(s, end) + rest)
            == Some((ExpectedCalls(msgs, s.mail, qs[..k]), Sent(now, end) + rest))
  {
    hide WithinLimits, FeedBytes, ClientCalls, ExpectedCalls, FinalMail, RequestBytes, Sent, Serving, Faults;
    LimitFacts(msgs, cfg, lim);
    var now := FeedBytes(cfg, msgs, s, RequestBytes(qs[..k]));
    var end := FeedBytes(cfg, msgs, s, RequestBytes(qs));
    assert qs == qs[..k] + qs[k..];
    FeedBytesSplit(cfg, msgs, s, qs[..k], qs[k..]);
    FaultsSplit(qs, k);
    ServingFewer(cfg, s.run, Faults(qs), Faults(qs[..k]));
    if k == |qs| {
      assert qs[..k] == qs;
      Refinement(cfg, msgs, s, qs, lim, rest);
      SentNothing(end, rest);
    } else {
      Refinement(cfg, msgs, s, qs[..k], lim, Sent(now, end) + rest);
      BoxShrinks(msgs, s.mail, qs[..k]);
      StillServing(cfg, msgs, s, qs, k, lim);
      Refinement(cfg, msgs, now, qs[k..], lim, rest);
      SentSplit(s, now, end, rest);
    }
  }

  lemma SentNothing(s: Server, rest: string)
    ensures Sent(s, s) + rest == rest
  {
  }

  lemma SentSplit(s: Server, now: Server, end: Server, rest: string)
    requires now.run.out == s.run.out + Sent(s, now) && end.run.out == now.run.out + Sent(now, end)
    ensures Sent(s, end) + rest == Sent(s, now) + (Sent(now, end) + rest)
  {
    assert end.run.out == s.run.out + (Sent(s, now) + Sent(now, end));
    assert Sent(s, end) == Sent(s, now) + Sent(now, end);
  }

  lemma ServingFewer(cfg: Config, r: Run, more: nat, fewer: nat)
    requires Serving(cfg, r, more) && fewer <= more
    ensures Serving(cfg, r, fewer)
  {
  }

  lemma {:induction false} FaultsSplit(qs: seq<Request>, k: nat)
    requires k <= |qs|
    ensures Faults(qs) == Faults(qs[..k]) + Faults(qs[k..])
  {
    if k == 0 {
      assert qs[0..] == qs;
    } else {
      FaultsSplit(qs[1..], k - 1);
      assert qs[..k][1..] == qs[1..][..k - 1] && qs[1..][k - 1..] == qs[k..];
    }
  }

  /** Of the budget of errors exactly the faults are used up. */
  lemma {:induction false} StillServing(cfg: Config, msgs: seq<Message>, s: Server,
                                        qs: seq<Request>, k: nat, lim: Limits)
    requires WithinLimits(msgs, cfg, lim)
    requires Conversation(qs) && Serving(cfg, s.run, Faults(qs)) && k < |qs|
    ensures Serving(cfg, FeedBytes(cfg, msgs, s, RequestBytes(qs[..k])).run, Faults(qs[k..]))
    decreases k
  {
    hide WithinLimits, FeedBytes, RequestLine, Feed, Respond, Render, MailAfter;
    LimitFacts(msgs, cfg, lim);
    if k == 0 {
      NoInput(cfg, msgs, s);
      assert RequestBytes(qs[..0]) == "" && qs[0..] == qs;
    } else {
      assert qs[..k][1..] == qs[1..][..k - 1] && qs[1..][k - 1..] == qs[k..];
      FeedFirst(cfg, msgs, s, qs[0], RequestBytes(qs[1..][..k - 1]));
      FeedOne(cfg, msgs, s, qs[0], Faults(qs[1..]));
      StillServing(cfg, msgs, Feed(cfg, msgs, s, RequestLine(qs[0])), qs[1..], k - 1, lim);
    }
  }
}
