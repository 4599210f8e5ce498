/** Any number of conversations at once over one store: each connection gets the results of its own
    snapshot and marks, whatever the others do, and the store keeps its invariant. */
module Concurrent {
  import opened Lines
  import opened Text
  import opened Numbers
  import opened Protocol
  import opened Maildrop
  import opened ClientReplies
  import opened Dialogue
  import Interleaving
  import Discipline
  import ServerSide
  import ClientSide
  import EndToEnd

  /** What happens next: a client asks on its connection, or something else happens to the store or
      to a session that is on none of the connections. */
  datatype Item = Ask(sid: nat, q: Request) | Happens(e: Interleaving.Event)

  /** The store with its sessions, and the authenticated connections with their runs so far. */
  datatype System = System(world: Interleaving.World, runs: map<nat, Run>)

  /** What a session sees: its marks and the box of its user. */
  ghost function MailOf(w: Interleaving.World, sid: nat): Mail
    requires sid in w.sessions
  {
    Mail(w.sessions[sid].deleted, Interleaving.BoxOf(w, w.sessions[sid].user))
  }

  /** What a session call does to the world. */
  ghost function Call1(w: Interleaving.World, sid: nat, x: Call): Interleaving.World {
    match x
    case CallDele(num) => Interleaving.Step(w, Interleaving.Dele(sid, num))
    case CallRset => Interleaving.Step(w, Interleaving.Rset(sid))
    case CallQuit => Interleaving.Step(w, Interleaving.Quit(sid))
    case CallClose => Interleaving.Step(w, Interleaving.Drop(sid))
    case _ => w
  }

  ghost function Calls(w: Interleaving.World, sid: nat, calls: seq<Call>): Interleaving.World
    decreases |calls|
  {
    if calls == [] then w else Calls(Call1(w, sid, calls[0]), sid, calls[1..])
  }

  /** Whether the event is one of a session on a connection. */
  predicate OnConnection(e: Interleaving.Event, runs: map<nat, Run>) {
    exists sid :: sid in runs && Interleaving.ActsAs(e, sid)
  }

  ghost function Answered(cfg: Config, y: System, sid: nat, q: Request): Run
    requires sid in y.runs && sid in y.world.sessions
  {
    Step(cfg, y.runs[sid],
         Event(Received(RequestLine(q)), EnvOf(y.world.sessions[sid].msgs, MailOf(y.world, sid))))
  }

  function NewCalls(r: Run, r': Run): seq<Call> {
    if |r.calls| <= |r'.calls| then r'.calls[|r.calls|..] else []
  }

  ghost function Next(cfg: Config, y: System, i: Item): System {
    match i
    case Ask(sid, q) =>
      if sid !in y.runs || sid !in y.world.sessions then y
      else
        var run := Answered(cfg, y, sid, q);
        System(Calls(y.world, sid, NewCalls(y.runs[sid], run)), y.runs[sid := run])
    case Happens(e) =>
      if OnConnection(e, y.runs) then y else y.(world := Interleaving.Step(y.world, e))
  }

  ghost function Play(cfg: Config, y: System, items: seq<Item>): System
    decreases |items|
  {
    if items == [] then y else Play(cfg, Next(cfg, y, items[0]), items[1..])
  }

  /** What one client asks, in order. */
  function Asked(items: seq<Item>, sid: nat): seq<Request> {
    if items == [] then []
    else if items[0].Ask? && items[0].sid == sid then [items[0].q] + Asked(items[1..], sid)
    else Asked(items[1..], sid)
  }

  // ----- The world keeps its invariant -----

  lemma Call1Keeps(w: Interleaving.World, sid: nat, x: Call)
    requires Interleaving.Inv(w)
    ensures Interleaving.Inv(Call1(w, sid, x)) && Call1(w, sid, x).added == w.added
  {
    hide Interleaving.Inv;
    match x
    case CallDele(num) => Interleaving.StepKeeps(w, Interleaving.Dele(sid, num));
    case CallRset => Interleaving.StepKeeps(w, Interleaving.Rset(sid));
    case CallQuit => Interleaving.StepKeeps(w, Interleaving.Quit(sid));
    case CallClose => Interleaving.StepKeeps(w, Interleaving.Drop(sid));
    case _ =>
  }

  lemma {:induction false} CallsKeep(w: Interleaving.World, sid: nat, calls: seq<Call>)
    requires Interleaving.Inv(w)
    ensures Interleaving.Inv(Calls(w, sid, calls)) && Calls(w, sid, calls).added == w.added
    decreases |calls|
  {
    hide Interleaving.Inv, Call1;
    if calls != [] {
      Call1Keeps(w, sid, calls[0]);
      CallsKeep(Call1(w, sid, calls[0]), sid, calls[1..]);
    }
  }

  lemma NextKeeps(cfg: Config, y: System, i: Item)
    requires Interleaving.Inv(y.world)
    ensures Interleaving.Inv(Next(cfg, y, i).world) && |Next(cfg, y, i).world.added| <= |y.world.added| + 1
  {
    hide Interleaving.Inv, Interleaving.Step, Calls, Answered;
    match i
    case Ask(sid, q) =>
      if sid in y.runs && sid in y.world.sessions {
        CallsKeep(y.world, sid, NewCalls(y.runs[sid], Answered(cfg, y, sid, q)));
      }
    case Happens(e) =>
      Interleaving.StepKeeps(y.world, e);
      OneAdded(y.world, e);
  }

  lemma OneAdded(w: Interleaving.World, e: Interleaving.Event)
    ensures |Interleaving.Step(w, e).added| <= |w.added| + 1
  {
    hide Marked, Without, MarksAfterDele;
  }

  lemma {:induction false} PlayKeeps(cfg: Config, y: System, items: seq<Item>)
    requires Interleaving.Inv(y.world)
    ensures Interleaving.Inv(Play(cfg, y, items).world)
    decreases |items|
  {
    hide Interleaving.Inv, Next;
    if items != [] {
      NextKeeps(cfg, y, items[0]);
      PlayKeeps(cfg, Next(cfg, y, items[0]), items[1..]);
    }
  }

  // ----- What others do leaves a session alone -----

  /** The session and its connection are as they were. */
  ghost predicate Alone(y: System, y': System, sid: nat) {
    && sid in y.runs && sid in y.world.sessions && y.world.sessions[sid].phase != Interleaving.Fresh
    && sid in y'.runs && y'.runs[sid] == y.runs[sid]
    && sid in y'.world.sessions && y'.world.sessions[sid] == y.world.sessions[sid]
  }

  lemma {:induction false} CallsOfOthers(w: Interleaving.World, other: nat, calls: seq<Call>, sid: nat)
    requires other != sid && sid in w.sessions && w.sessions[sid].phase != Interleaving.Fresh
    ensures var w' := Calls(w, other, calls); sid in w'.sessions && w'.sessions[sid] == w.sessions[sid]
    decreases |calls|
  {
    hide Interleaving.Step;
    if calls != [] {
      Interleaving.IsolationStep(w, Interleaving.Rset(other), sid);
      Interleaving.IsolationStep(w, Interleaving.Quit(other), sid);
      Interleaving.IsolationStep(w, Interleaving.Drop(other), sid);
      if calls[0].CallDele? {
        Interleaving.IsolationStep(w, Interleaving.Dele(other, calls[0].num), sid);
      }
      CallsOfOthers(Call1(w, other, calls[0]), other, calls[1..], sid);
    }
  }

  lemma NextOfOthers(cfg: Config, y: System, i: Item, sid: nat)
    requires sid in y.runs && sid in y.world.sessions && y.world.sessions[sid].phase != Interleaving.Fresh
    requires !(i.Ask? && i.sid == sid)
    ensures Alone(y, Next(cfg, y, i), sid)
  {
    hide Interleaving.Step, Answered, Calls;
    match i
    case Ask(other, q) =>
      if other in y.runs && other in y.world.sessions {
        CallsOfOthers(y.world, other, NewCalls(y.runs[other], Answered(cfg, y, other, q)), sid);
      }
    case Happens(e) =>
      if !OnConnection(e, y.runs) {
        Interleaving.IsolationStep(y.world, e, sid);
      }
  }

  lemma {:induction false} Untouched(cfg: Config, y: System, items: seq<Item>, sid: nat)
    requires sid in y.runs && sid in y.world.sessions && y.world.sessions[sid].phase != Interleaving.Fresh
    requires Asked(items, sid) == []
    ensures Alone(y, Play(cfg, y, items), sid)
    decreases |items|
  {
    hide Next;
    if items != [] {
      NextOfOthers(cfg, y, items[0], sid);
      Untouched(cfg, Next(cfg, y, items[0]), items[1..], sid);
    }
  }

  // ----- A session's own call -----

  /** One session call moves marks and box as it moves those of the abstract maildrop. */
  lemma OwnCall(w: Interleaving.World, sid: nat, x: Call)
    requires Interleaving.IsOpen(w, sid)
    ensures var w', s := Call1(w, sid, x), w.sessions[sid];
            && sid in w'.sessions && w'.sessions[sid].msgs == s.msgs && w'.sessions[sid].user == s.user
            && MailOf(w', sid) == AfterCall(s.msgs, MailOf(w, sid), x)
            && (!x.CallQuit? && !x.CallClose? ==> Interleaving.IsOpen(w', sid))
            && w'.sessions[sid].phase != Interleaving.Fresh
  {
    hide Without, Marked;
  }

  lemma OwnClose(w: Interleaving.World, sid: nat)
    requires sid in w.sessions && w.sessions[sid].phase != Interleaving.Fresh
    ensures var w', s := Call1(w, sid, CallClose), w.sessions[sid];
            && sid in w'.sessions && w'.sessions[sid].msgs == s.msgs && w'.sessions[sid].user == s.user
            && MailOf(w', sid) == MailOf(w, sid) && w'.sessions[sid].phase != Interleaving.Fresh
  {
  }

  /** The calls of one turn: at most one and, at the end of the connection, Close. */
  lemma OwnCalls(w: Interleaving.World, sid: nat, calls: seq<Call>, close: bool)
    requires Interleaving.IsOpen(w, sid) && |calls| <= 1
    requires |calls| == 1 ==> !calls[0].CallClose? && (calls[0].CallQuit? ==> close)
    ensures var all := calls + if close then [CallClose] else [];
            var w', s := Calls(w, sid, all), w.sessions[sid];
            && sid in w'.sessions && w'.sessions[sid].msgs == s.msgs && w'.sessions[sid].user == s.user
            && MailOf(w', sid) == AfterCalls(s.msgs, MailOf(w, sid), calls)
            && (!close ==> Interleaving.IsOpen(w', sid))
            && w'.sessions[sid].phase != Interleaving.Fresh
  {
    hide Call1, AfterCall;
    var all := calls + if close then [CallClose] else [];
    if calls == [] {
      OwnClose(w, sid);
      assert all == if close then [CallClose] else [];
      assert close ==> all[1..] == [];
    } else {
      var x := calls[0];
      assert calls == [x];
      OwnCall(w, sid, x);
      ServerSide.OneCall(w.sessions[sid].msgs, MailOf(w, sid), x);
      var w1 := Call1(w, sid, x);
      OwnClose(w1, sid);
      assert all[0] == x && all[1..] == if close then [CallClose] else [];
      assert Calls(w, sid, all) == Calls(w1, sid, all[1..]);
      if close {
        assert [CallClose][1..] == [];
        assert Calls(w1, sid, [CallClose]) == Calls(Call1(w1, sid, CallClose), sid, []);
      } else {
        assert Calls(w1, sid, []) == w1;
      }
    }
  }

  /** A client's own call: the answer is sent, marks and box move as the abstract maildrop's do,
      and the connection waits for the next, except after Quit. */
  lemma OwnAsk(cfg: Config, y: System, sid: nat, q: Request, more: nat)
    requires sid in y.runs && Interleaving.IsOpen(y.world, sid)
    requires Serving(cfg, y.runs[sid], more + EndToEnd.Cost(q))
    ensures var y' := Next(cfg, y, Ask(sid, q));
            var msgs, mail := y.world.sessions[sid].msgs, MailOf(y.world, sid);
            && sid in y'.runs && sid in y'.world.sessions
            && y'.runs[sid].out == y.runs[sid].out + Render(Respond(cfg, msgs, mail, q))
            && y'.world.sessions[sid].msgs == msgs && y'.world.sessions[sid].user == y.world.sessions[sid].user
            && MailOf(y'.world, sid) == MailAfter(msgs, mail, q)
            && y'.world.sessions[sid].phase != Interleaving.Fresh
            && (if q.Quit? then !y'.runs[sid].live
                else Serving(cfg, y'.runs[sid], more) && Interleaving.IsOpen(y'.world, sid))
  {
    hide Dispatch, Render, Respond, MailAfter, AfterCalls, Calls, ParseCommand, Dialogue.MailSession, CommandOf,
         RequestLine, TrimSpace;
    var msgs, mail, r := y.world.sessions[sid].msgs, MailOf(y.world, sid), y.runs[sid];
    var s := Server(r, mail);
    var env := EnvOf(msgs, mail);
    var e := Dispatch(cfg, r.st, CommandOf(q), env);
    EndToEnd.FeedOne(cfg, msgs, s, q, more);
    ServerSide.RequestParsed(q);
    ServerSide.ServesEvery(cfg, msgs, mail, r.st, q, env);
    Discipline.DispatchSound(cfg, r.st, CommandOf(q), env);
    var run := Answered(cfg, y, sid, q);
    assert run == Advance(cfg, r, RequestLine(q), env, e);
    var ends := Ends(cfg, e, env.flushed);
    assert NewCalls(r, run) == e.calls + if ends then [CallClose] else [];
    OwnCalls(y.world, sid, e.calls, ends);
  }

  // ----- Every conversation has its own results -----

  /** The box does not show in any result. */
  lemma {:induction false} BoxIrrelevant(msgs: seq<Message>, m1: Mail, m2: Mail, qs: seq<Request>)
    requires m1.deleted == m2.deleted
    ensures ExpectedCalls(msgs, m1, qs) == ExpectedCalls(msgs, m2, qs)
    ensures FinalMail(msgs, m1, qs).deleted == FinalMail(msgs, m2, qs).deleted
    decreases |qs|
  {
    hide Expected, Marked, Without;
    if qs != [] {
      BoxIrrelevant(msgs, MailAfter(msgs, m1, qs[0]), MailAfter(msgs, m2, qs[0]), qs[1..]);
    }
  }

  lemma {:induction false} AddedSize(added: seq<(string, Message)>, u: string)
    ensures |Interleaving.AddedTo(added, u)| <= |added|
  {
    if added != [] {
      AddedSize(added[..|added| - 1], u);
    }
  }

  /** No box holds more than was ever added. */
  lemma BoxSize(w: Interleaving.World, u: string)
    requires Interleaving.Inv(w)
    ensures |Interleaving.BoxOf(w, u)| <= |w.added|
  {
    hide Interleaving.AddedOnce, Interleaving.Conserved, Interleaving.CountedOnce, Interleaving.GoneExplained,
         Interleaving.SessionsSane, Interleaving.AddedTo;
    AddedSize(w.added, u);
  }

  function SentTo(y: System, y': System, sid: nat): string
    requires sid in y.runs && sid in y'.runs
  {
    var was, now := y.runs[sid].out, y'.runs[sid].out;
    if was <= now then now[|was|..] else ""
  }

  ghost predicate Ready(cfg: Config, y: System, items: seq<Item>, sid: nat, lim: Limits) {
    && Interleaving.Inv(y.world) && |y.world.added| + |items| <= MAX_INT64
    && sid in y.runs && Interleaving.IsOpen(y.world, sid)
    && WithinLimits(y.world.sessions[sid].msgs, cfg, lim)
    && EndToEnd.Conversation(Asked(items, sid)) && Serving(cfg, y.runs[sid], Faults(Asked(items, sid)))
  }

  ghost predicate Independent(y: System, y': System, qs: seq<Request>, sid: nat, lim: Limits, rest: string)
    requires sid in y.world.sessions
  {
    var msgs, mail := y.world.sessions[sid].msgs, MailOf(y.world, sid);
    && sid in y.runs && sid in y'.runs && sid in y'.world.sessions
    && y'.runs[sid].out == y.runs[sid].out + SentTo(y, y', sid)
    && ClientCalls(lim, qs, SentTo(y, y', sid) + rest) == Some((ExpectedCalls(msgs, mail, qs), rest))
    && y'.world.sessions[sid].msgs == msgs
    && y'.world.sessions[sid].deleted == FinalMail(msgs, mail, qs).deleted
  }

  lemma AloneIndependent(y: System, y': System, sid: nat, lim: Limits, rest: string)
    requires Alone(y, y', sid)
    ensures Independent(y, y', [], sid, lim, rest)
  {
    assert SentTo(y, y', sid) == "";
    assert "" + rest == rest;
  }

  /** Something that leaves the session alone comes first. */
  lemma AfterOthers(y: System, y1: System, y': System, qs: seq<Request>, sid: nat, lim: Limits, rest: string)
    requires Alone(y, y1, sid) && Independent(y1, y', qs, sid, lim, rest)
    ensures Independent(y, y', qs, sid, lim, rest)
  {
    hide ClientCalls, ExpectedCalls, FinalMail;
    BoxIrrelevant(y.world.sessions[sid].msgs, MailOf(y.world, sid), MailOf(y1.world, sid), qs);
    assert SentTo(y, y', sid) == SentTo(y1, y', sid);
  }

  /** The client's own call comes first. */
  lemma AfterOwn(cfg: Config, y: System, y1: System, y': System, q: Request, qs: seq<Request>, sid: nat, lim: Limits,
                 rest: string)
    requires sid in y.runs && sid in y.world.sessions && sid in y1.runs && sid in y1.world.sessions
    requires var msgs, mail := y.world.sessions[sid].msgs, MailOf(y.world, sid);
             && WithinLimits(msgs, cfg, lim) && |mail.box| <= MAX_INT64
             && y1.runs[sid].out == y.runs[sid].out + Render(Respond(cfg, msgs, mail, q))
             && y1.world.sessions[sid].msgs == msgs && MailOf(y1.world, sid) == MailAfter(msgs, mail, q)
    requires Independent(y1, y', qs, sid, lim, rest)
    ensures Independent(y, y', [q] + qs, sid, lim, rest)
  {
    hide ClientCall, Expected, MailAfter, Render, Respond, WithinLimits;
    var msgs, mail := y.world.sessions[sid].msgs, MailOf(y.world, sid);
    var r, sent := Render(Respond(cfg, msgs, mail, q)), SentTo(y1, y', sid);
    ClientSide.Agree(cfg, msgs, mail, lim, q, sent + rest);
    assert y'.runs[sid].out == y.runs[sid].out + (r + sent);
    assert SentTo(y, y', sid) == r + sent;
    assert (r + sent) + rest == r + (sent + rest);
    assert ([q] + qs)[1..] == qs;
  }

  /** For every connection, whatever happens on the others and to the store meanwhile: the client
      gets, call by call, the results of its own snapshot and marks, and stops exactly at what
      follows. */
  lemma {:induction false} OwnResults(cfg: Config, y: System, items: seq<Item>, sid: nat, lim: Limits, rest: string)
    requires Ready(cfg, y, items, sid, lim)
    ensures Independent(y, Play(cfg, y, items), Asked(items, sid), sid, lim, rest)
    decreases |items|
  {
    hide WithinLimits, Next, Independent, Alone, Interleaving.Inv, Serving, Respond, Render, MailAfter;
    var y' := Play(cfg, y, items);
    if Asked(items, sid) == [] {
      Untouched(cfg, y, items, sid);
      AloneIndependent(y, y', sid, lim, rest);
    } else {
      var i, y1 := items[0], Next(cfg, y, items[0]);
      NextKeeps(cfg, y, i);
      if i.Ask? && i.sid == sid {
        OwnFirst(cfg, y, items, sid, lim, rest);
      } else {
        NextOfOthers(cfg, y, i, sid);
        StillReady(cfg, y, y1, items, sid, lim);
        OwnResults(cfg, y1, items[1..], sid, lim, rest);
        AfterOthers(y, y1, y', Asked(items[1..], sid), sid, lim, rest);
      }
    }
  }

  lemma StillReady(cfg: Config, y: System, y1: System, items: seq<Item>, sid: nat, lim: Limits)
    requires Ready(cfg, y, items, sid, lim) && items != [] && !(items[0].Ask? && items[0].sid == sid)
    requires Alone(y, y1, sid) && Interleaving.Inv(y1.world) && |y1.world.added| <= |y.world.added| + 1
    ensures Ready(cfg, y1, items[1..], sid, lim)
  {
    hide WithinLimits, Interleaving.Inv, Serving;
  }

  lemma OwnFirst(cfg: Config, y: System, items: seq<Item>, sid: nat, lim: Limits, rest: string)
    requires Ready(cfg, y, items, sid, lim) && items != [] && items[0].Ask? && items[0].sid == sid
    ensures Independent(y, Play(cfg, y, items), Asked(items, sid), sid, lim, rest)
    decreases |items|, 0
  {
    hide WithinLimits, Next, Independent, Alone, Interleaving.Inv, Serving, Respond, Render, MailAfter;
    var q, qs := items[0].q, Asked(items[1..], sid);
    var y1, y' := Next(cfg, y, items[0]), Play(cfg, y, items);
    assert items[0] == Ask(sid, q);
    assert ([q] + qs)[1..] == qs;
    NextKeeps(cfg, y, items[0]);
    OwnAsk(cfg, y, sid, q, Faults(qs));
    BoxSize(y.world, y.world.sessions[sid].user);
    if qs == [] {
      Untouched(cfg, y1, items[1..], sid);
      AloneIndependent(y1, y', sid, lim, rest);
    } else {
      assert forall i :: 0 <= i < |qs| ==> qs[i] == ([q] + qs)[i + 1];
      OwnResults(cfg, y1, items[1..], sid, lim, rest);
    }
    AfterOwn(cfg, y, y1, y', q, qs, sid, lim, rest);
  }

  /** All conversations at once: every connection that is ready has its own results, and at the end
      the store's invariant holds, so that in particular messages are conserved. */
  lemma AllConversations(cfg: Config, y: System, items: seq<Item>)
    requires Interleaving.Inv(y.world)
    ensures forall sid: nat, lim: Limits, rest: string :: Ready(cfg, y, items, sid, lim) ==>
              Independent(y, Play(cfg, y, items), Asked(items, sid), sid, lim, rest)
    ensures Interleaving.Inv(Play(cfg, y, items).world)
  {
    hide Ready, Independent, Interleaving.Inv, Play;
    PlayKeeps(cfg, y, items);
    forall sid: nat, lim: Limits, rest: string | Ready(cfg, y, items, sid, lim)
      ensures sid in y.world.sessions && Independent(y, Play(cfg, y, items), Asked(items, sid), sid, lim, rest)
    {
      ReadyOpen(cfg, y, items, sid, lim);
      OwnResults(cfg, y, items, sid, lim, rest);
    }
  }

  lemma ReadyOpen(cfg: Config, y: System, items: seq<Item>, sid: nat, lim: Limits)
    requires Ready(cfg, y, items, sid, lim)
    ensures sid in y.world.sessions
  {
  }
}
