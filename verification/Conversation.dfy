/** The client object in a conversation: its methods read exactly what the client's half of the
    dialogue specifies, so on the bytes the server sends they return what the abstract maildrop
    answers. */
module Conversation {
  import opened Lines
  import opened Numbers
  import opened Maildrop
  import opened Protocol
  import opened ClientReplies
  import opened Client
  import opened Dialogue
  import EndToEnd

  /** A call that failed to read its reply has no result. */
  function Wrapped<T>(r: Option<ClientReplies.Result<T>>, wrap: T -> Value): Option<CallResult> {
    match r
    case None => None
    case Some(Value(v)) => Some(Returned(wrap(v)))
    case Some(_) => Some(Refusal)
  }

  /** How a retrieved body is used before the next call: read to its end through a buffer, or
      used in any way and closed. */
  datatype Plan = ToEnd(size: nat) | Partly(uses: seq<Use>)

  predicate Sound(plan: Plan) {
    plan.ToEnd? ==> plan.size > 0
  }

  /** What is got is what is meant, or the start of its text where that was all that was read. */
  predicate Meets(plan: Plan, got: CallResult, meant: CallResult) {
    || got == meant
    || (plan.Partly? && got.Returned? && got.value.TextValue? && meant.Returned? && meant.value.TextValue?
        && got.value.text <= meant.value.text)
  }

  method Body(c: Client, cmd: string, plan: Plan) returns (r: Option<CallResult>)
    requires c.reader.size >= 16 && Sound(plan)
    modifies c`written, c.reader
    ensures c.written == old(c.written) + cmd + CRLF
    ensures match old(Outcome(BodyReply(c.Bounds(), c.Unseen()), v => TextValue(v)))
            case Some((meant, rest)) => r.Some? && Meets(plan, r.value, meant) && c.Unseen() == rest
            case None => r == None
  {
    hide BodyReply;
    var x;
    match plan {
      case ToEnd(size) => x := Fetch(c, cmd, size);
      case Partly(uses) => x := FetchPart(c, cmd, uses);
    }
    r := Wrapped(x, v => TextValue(v));
  }

  /** One call by its method. */
  method Perform(c: Client, q: Request, plan: Plan) returns (r: Option<CallResult>)
    requires c.reader.size >= 16 && Sound(plan)
    modifies c`written, c.reader
    ensures c.written == old(c.written) + RequestLine(q) + CRLF
    ensures match old(ClientCall(c.Bounds(), q, c.Unseen()))
            case Some((meant, rest)) => r.Some? && Meets(plan, r.value, meant) && c.Unseen() == rest
            case None => r == None
  {
    hide DecInt, StatReply, ListReply, ListOneReply, UidlReply, UidlOneReply, BodyReply, OkReply;
    match q
    case Stat =>
      var x := c.Stat();
      r := Wrapped(x, v => TotalsValue(v));
    case List =>
      var x := c.List();
      r := Wrapped(x, v => InfosValue(v));
    case ListOne(n) =>
      var x := c.ListOne(n);
      r := Wrapped(x, v => InfoValue(v));
    case Uidl =>
      var x := c.Uidl();
      r := Wrapped(x, v => UidsValue(v));
    case UidlOne(n) =>
      var x := c.UidlOne(n);
      r := Wrapped(x, v => UidValue(v));
    case Retr(n) => r := Body(c, "RETR " + DecInt(n), plan);
    case Top(n, k) => r := Body(c, "TOP " + DecInt(n) + " " + DecInt(k), plan);
    case Dele(n) =>
      var x := c.Dele(n);
      r := Wrapped(x, v => Nothing);
    case Rset =>
      var x := c.CmdExpectOK("RSET");
      r := Wrapped(x, v => Nothing);
    case Noop =>
      var x := c.CmdExpectOK("NOOP");
      r := Wrapped(x, v => Nothing);
    case Quit =>
      var x := c.CmdExpectOK("QUIT");
      r := Wrapped(x, v => Nothing);
  }

  predicate AllMeet(plans: seq<Plan>, got: seq<CallResult>, meant: seq<CallResult>) {
    |got| == |meant| <= |plans| && forall i :: 0 <= i < |got| ==> Meets(plans[i], got[i], meant[i])
  }

  /** The calls one after the other, until one of them cannot read its reply. */
  method PerformAll(c: Client, qs: seq<Request>, plans: seq<Plan>) returns (rs: seq<CallResult>, failed: bool)
    requires c.reader.size >= 16 && |plans| == |qs| && forall i :: 0 <= i < |plans| ==> Sound(plans[i])
    modifies c`written, c.reader
    ensures !failed ==> c.written == old(c.written) + RequestBytes(qs)
    ensures match old(ClientCalls(c.Bounds(), qs, c.Unseen()))
            case Some((meant, rest)) => !failed && AllMeet(plans, rs, meant) && c.Unseen() == rest
            case None => failed
  {
    hide ClientCall, ClientCalls, RequestLine, Meets, Sound, Onwards;
    rs, failed := [], false;
    var i := 0;
    ghost var all := ClientCalls(c.Bounds(), qs, c.Unseen());
    ghost var meant: seq<CallResult> := [];
    NothingYet(all);
    assert qs[0..] == qs;
    assert c.written + RequestBytes(qs[..0]) == c.written;
    while i < |qs|
      invariant i <= |qs| && |rs| == i
      invariant c.written == old(c.written) + RequestBytes(qs[..i])
      invariant AllMeet(plans, rs, meant)
      invariant all == Onwards(meant, ClientCalls(c.Bounds(), qs[i..], c.Unseen()))
    {
      RequestSnoc(qs, i);
      OneMore(meant, c.Bounds(), qs[i..], c.Unseen());
      assert qs[i..][1..] == qs[i + 1..];
      ghost var reply := ClientCall(c.Bounds(), qs[i], c.Unseen());
      var r := Perform(c, qs[i], plans[i]);
      if r.None? {
        return rs, true;
      }
      rs := rs + [r.value];
      meant := meant + [reply.value.0];
      i := i + 1;
    }
    assert qs[..i] == qs && qs[i..] == [];
    AllDone(meant, c.Bounds(), c.Unseen());
  }

  /** The results so far before those to come. */
  function Onwards(meant: seq<CallResult>, more: Option<(seq<CallResult>, string)>): Option<(seq<CallResult>, string)> {
    match more
    case Some((rs, rest)) => Some((meant + rs, rest))
    case None => None
  }

  lemma NothingYet(more: Option<(seq<CallResult>, string)>)
    ensures Onwards([], more) == more
  {
    if more.Some? {
      assert [] + more.value.0 == more.value.0;
    }
  }

  lemma OneMore(meant: seq<CallResult>, lim: Limits, qs: seq<Request>, s: string)
    requires qs != []
    ensures Onwards(meant, ClientCalls(lim, qs, s)) ==
            match ClientCall(lim, qs[0], s)
            case None => None
            case Some((m, rest)) => Onwards(meant + [m], ClientCalls(lim, qs[1..], rest))
  {
    hide ClientCall;
    if ClientCall(lim, qs[0], s).Some? {
      var (m, rest) := ClientCall(lim, qs[0], s).value;
      var more := ClientCalls(lim, qs[1..], rest);
      if more.Some? {
        assert meant + ([m] + more.value.0) == meant + [m] + more.value.0;
      }
    }
  }

  lemma AllDone(meant: seq<CallResult>, lim: Limits, s: string)
    ensures Onwards(meant, ClientCalls(lim, [], s)) == Some((meant, s))
  {
    assert meant + [] == meant;
  }

  lemma RequestSnoc(qs: seq<Request>, i: nat)
    requires i < |qs|
    ensures RequestBytes(qs[..i + 1]) == RequestBytes(qs[..i]) + RequestLine(qs[i]) + CRLF
  {
    hide RequestLine;
    if i == 0 {
      assert qs[..1] == [qs[0]];
      assert RequestBytes([qs[0]]) == RequestLine(qs[0]) + CRLF + "";
    } else {
      RequestSnoc(qs[1..], i - 1);
      assert qs[..i + 1][1..] == qs[1..][..i] && qs[..i][1..] == qs[1..][..i - 1];
    }
  }

  /** The client object against the server: what it writes makes the server send the bytes it
      reads, its methods return what the abstract maildrop answers, or the start of a text of
      which only that was read, and it stops exactly where the server's answers end. */
  method Converse(c: Client, qs: seq<Request>, plans: seq<Plan>, cfg: Config, ghost msgs: seq<Message>, ghost s: Server,
                  ghost rest: string)
    returns (rs: seq<CallResult>)
    requires c.reader.size >= 16 && c.written == ""
    requires |plans| == |qs| && forall i :: 0 <= i < |plans| ==> Sound(plans[i])
    requires WithinLimits(msgs, cfg, c.Bounds()) && |s.mail.box| <= MAX_INT64
    requires EndToEnd.Conversation(qs) && Serving(cfg, s.run, Faults(qs))
    requires c.Unseen() == EndToEnd.Sent(s, FeedBytes(cfg, msgs, s, RequestBytes(qs))) + rest
    modifies c`written, c.reader
    ensures AllMeet(plans, rs, ExpectedCalls(msgs, s.mail, qs))
    ensures c.Unseen() == rest
    ensures FeedBytes(cfg, msgs, s, c.written).mail == FinalMail(msgs, s.mail, qs)
  {
    hide WithinLimits, FeedBytes, ClientCalls, RequestBytes, Serving, EndToEnd.Sent, ExpectedCalls, AllMeet, Sound;
    EndToEnd.Refinement(cfg, msgs, s, qs, c.Bounds(), rest);
    var results, failed := PerformAll(c, qs, plans);
    assert "" + RequestBytes(qs) == RequestBytes(qs);
    rs := results;
  }
}
