/** Two runs in which a further login on an open session goes wrong. */
module SecondLogin {
  import opened Maildrop
  import opened Interleaving

  lemma ExecCons(w: World, e: Event, events: seq<Event>)
    ensures Exec(w, [e] + events) == Exec(Step(w, e), events)
  {
    assert ([e] + events)[1..] == events;
  }

  lemma ExecConcat(w: World, a: seq<Event>, b: seq<Event>)
    ensures Exec(w, a + b) == Exec(Exec(w, a), b)
    decreases |a|
  {
    hide Step;
    if a == [] {
      assert a + b == b;
    } else {
      assert (a + b)[1..] == a[1..] + b;
      ExecConcat(Step(w, a[0]), a[1..], b);
    }
  }

  lemma ExecPair(w: World, e: Event, f: Event)
    ensures Exec(w, [e, f]) == Step(Step(w, e), f)
  {
    hide Step;
    assert [e, f][1..] == [f] && [f][1..] == [];
    assert Exec(Step(w, e), [f]) == Exec(Step(Step(w, e), f), []);
  }

  /** Two users, the first with the message `m`, the second with the messages `ms`. */
  ghost predicate TwoUsers(w: World, u: string, v: string, p: string, m: Message, ms: seq<Message>) {
    && u in w.boxes && w.boxes[u] == [m] && v in w.boxes && w.boxes[v] == ms
    && u in w.passwords && w.passwords[u] == p && v in w.passwords && w.passwords[v] == p
    && 0 !in w.sessions && w.quits == [] && 0 !in w.named
  }

  const SID: nat := 0

  /** The session of `u` marks its only message and logs in again as `v`. */
  function Switches(u: string, v: string, p: string): seq<Event> {
    [Connect(SID), Login(SID, u, p)] + [Dele(SID, 1), Login(SID, v, p)]
  }

  lemma MarksFirst(w: World, u: string, v: string, p: string, m: Message, ms: seq<Message>)
    requires u != v && TwoUsers(w, u, v, p, m, ms)
    ensures var w' := Step(Step(Step(w, Connect(SID)), Login(SID, u, p)), Dele(SID, 1));
            && w'.boxes == w.boxes && w'.passwords == w.passwords && w'.quits == []
            && SID in w'.sessions && w'.sessions[SID] == Sess(u, [m], {1}, Open)
            && NamedBy(w', SID) == map[1 := m]
  {
    var w2 := Step(Step(w, Connect(SID)), Login(SID, u, p));
    assert w2.sessions[SID] == Sess(u, [m], {}, Open) && NamedBy(w2, SID) == map[];
  }

  lemma Switched(w: World, u: string, v: string, p: string, m: Message, ms: seq<Message>)
    requires u != v && TwoUsers(w, u, v, p, m, ms)
    ensures var w' := Exec(w, Switches(u, v, p));
            && w'.boxes == w.boxes && w'.quits == []
            && SID in w'.sessions && w'.sessions[SID] == Sess(v, ms, {1}, Open)
            && NamedBy(w', SID) == map[1 := m]
  {
    MarksFirst(w, u, v, p, m, ms);
    var w3 := Step(Step(Step(w, Connect(SID)), Login(SID, u, p)), Dele(SID, 1));
    Relogin(w3, v, p);
    hide Step;
    ExecConcat(w, [Connect(SID), Login(SID, u, p)], [Dele(SID, 1), Login(SID, v, p)]);
    ExecPair(w, Connect(SID), Login(SID, u, p));
    ExecPair(Step(Step(w, Connect(SID)), Login(SID, u, p)), Dele(SID, 1), Login(SID, v, p));
  }

  lemma Relogin(w: World, v: string, p: string)
    requires IsOpen(w, SID) && v in w.boxes && v in w.passwords && w.passwords[v] == p
    ensures var w' := Step(w, Login(SID, v, p));
            && w'.boxes == w.boxes && w'.quits == w.quits && NamedBy(w', SID) == NamedBy(w, SID)
            && SID in w'.sessions && w'.sessions[SID] == Sess(v, w.boxes[v], w.sessions[SID].deleted, Open)
  {
  }

  function Sets(u: string, v: string, p: string, m: Message): seq<Event> {
    [AddUser(u, p), AddMessage(u, m), AddUser(v, p)]
  }

  lemma SetUp(u: string, v: string, p: string, m: Message)
    requires u != v
    ensures var w := Exec(EMPTY, Sets(u, v, p, m)); TwoUsers(w, u, v, p, m, []) && w.owner.Keys == {m}
  {
    ExecThree(EMPTY, AddUser(u, p), AddMessage(u, m), AddUser(v, p));
  }

  /** A session marks its first message and logs in again as a user without messages: the mark is
      no number of the new snapshot. */
  lemma MarkBeyondSnapshot(u: string, v: string, p: string, m: Message)
    requires u != v
    ensures var w := Exec(EMPTY, Sets(u, v, p, m) + Switches(u, v, p)); SID in w.sessions && !Within(w, SID)
  {
    hide Sets, Switches;
    SetUp(u, v, p, m);
    ExecConcat(EMPTY, Sets(u, v, p, m), Switches(u, v, p));
    Switched(Exec(EMPTY, Sets(u, v, p, m)), u, v, p, m, []);
    var s := Exec(EMPTY, Sets(u, v, p, m) + Switches(u, v, p)).sessions[SID];
    assert 1 in s.deleted && !(1 <= |s.msgs|);
  }

  /** A session marks the first message of one user, logs in again as another, and quits: a message
      of the other user is gone, although no Dele ever named it, and the one that was named
      stays. */
  lemma UnnamedRemoved(u: string, v: string, p: string, m1: Message, m2: Message)
    requires u != v && m1 != m2
    ensures var w := Exec(EMPTY, Sets(u, v, p, m1) + [AddMessage(v, m2)] + Switches(u, v, p) + [Quit(SID)]);
            && BoxOf(w, u) == [m1] && BoxOf(w, v) == []
            && |w.quits| == 1 && w.quits[0].removed == [m2] && w.quits[0].named == {m1}
  {
    hide Sets, Switches;
    SetUp(u, v, p, m1);
    var w0 := Exec(EMPTY, Sets(u, v, p, m1));
    var w1 := Step(w0, AddMessage(v, m2));
    ExecConcat(EMPTY, Sets(u, v, p, m1), [AddMessage(v, m2)]);
    ExecCons(w0, AddMessage(v, m2), []);
    ExecConcat(EMPTY, Sets(u, v, p, m1) + [AddMessage(v, m2)], Switches(u, v, p));
    Switched(w1, u, v, p, m1, [m2]);
    var w2 := Exec(w1, Switches(u, v, p));
    ExecConcat(EMPTY, Sets(u, v, p, m1) + [AddMessage(v, m2)] + Switches(u, v, p), [Quit(SID)]);
    ExecCons(w2, Quit(SID), []);
    Quits(w2, u, v, m1, m2);
  }

  lemma OneMessage(m: Message)
    ensures Marked([m], {1}) == {m} && Only([m], {m}) == [m] && Without([m], {m}) == []
  {
    assert [m][1 - 1] in Marked([m], {1});
    assert [m][..0] == [];
  }

  lemma Quits(w: World, u: string, v: string, m1: Message, m2: Message)
    requires u != v && m1 != m2 && u in w.boxes && w.boxes[u] == [m1] && v in w.boxes && w.boxes[v] == [m2]
    requires SID in w.sessions && w.sessions[SID] == Sess(v, [m2], {1}, Open)
    requires NamedBy(w, SID) == map[1 := m1] && w.quits == []
    ensures var w' := Step(w, Quit(SID));
            && BoxOf(w', u) == [m1] && BoxOf(w', v) == []
            && |w'.quits| == 1 && w'.quits[0].removed == [m2] && w'.quits[0].named == {m1}
  {
    hide Marked, Only, Without;
    OneMessage(m2);
    assert NamedBy(w, SID).Values == {m1} by {
      assert 1 in NamedBy(w, SID);
    }
    var w' := Step(w, Quit(SID));
    assert w'.quits == [Quitting(SID, v, {m2}, [m2], {m1})];
  }
}
