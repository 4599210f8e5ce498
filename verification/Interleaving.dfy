/** Any number of sessions over one locked store, in any interleaving of their actions. */
module Interleaving {
  import opened Maildrop

  datatype Phase = Fresh | Open | Over

  /** A session's own state: its snapshot and its marks. */
  datatype Sess = Sess(user: string, msgs: seq<Message>, deleted: set<nat>, phase: Phase)

  /** What one Quit did: the messages its session had marked, those it removed and counted, and
      those the session's Dele commands had named. */
  datatype Quitting = Quitting(sid: nat, user: string, marked: set<Message>, removed: seq<Message>, named: set<Message>)

  /** The store and its sessions, with the history of what entered and left the store: the
      messages added, in order, and to whom; the Quits; the messages lost with a replaced
      user; all messages that have left; and for each mark of a session the message that its
      number denoted when Dele set it. */
  datatype World = World(
    passwords: map<string, string>,
    boxes: map<string, seq<Message>>,
    sessions: map<nat, Sess>,
    added: seq<(string, Message)>,
    owner: map<Message, string>,
    quits: seq<Quitting>,
    lost: seq<(string, Message)>,
    gone: set<Message>,
    named: map<nat, map<nat, Message>>
  )

  const EMPTY := World(map[], map[], map[], [], map[], [], [], {}, map[])

  datatype Event =
    | AddUser(user: string, password: string)
    | AddMessage(user: string, m: Message)
    | Connect(sid: nat)
    | Login(sid: nat, user: string, password: string)
    | Dele(sid: nat, num: nat)
    | Rset(sid: nat)
    | Quit(sid: nat)
    | Drop(sid: nat)

  predicate IsOpen(w: World, sid: nat) {
    sid in w.sessions && w.sessions[sid].phase == Open
  }

  function NamedBy(w: World, sid: nat): map<nat, Message> {
    if sid in w.named then w.named[sid] else map[]
  }

  /** The messages that are removed, in their order. */
  function Only(ms: seq<Message>, remove: set<Message>): (out: seq<Message>)
    ensures |out| + |Without(ms, remove)| == |ms|
  {
    if ms == [] then []
    else if ms[|ms| - 1] in remove then Only(ms[..|ms| - 1], remove) + [ms[|ms| - 1]]
    else Only(ms[..|ms| - 1], remove)
  }

  lemma OnlyMembers(ms: seq<Message>, remove: set<Message>)
    ensures forall m :: m in Only(ms, remove) <==> m in ms && m in remove
  {
  }

  function Elements(ms: seq<Message>): set<Message> {
    set m | m in ms
  }

  function Tagged(user: string, ms: seq<Message>): (r: seq<(string, Message)>)
    ensures |r| == |ms|
  {
    seq(|ms|, i requires 0 <= i < |ms| => (user, ms[i]))
  }

  /** One atomic action. An action that cannot happen leaves the world as it is: a message is
      new when it is added, and a session acts only while it is open. */
  ghost function Step(w: World, e: Event): World {
    match e
    case AddUser(u, p) =>
      var old_ := BoxOf(w, u);
      w.(passwords := w.passwords[u := p], boxes := w.boxes[u := []],
         lost := w.lost + Tagged(u, old_), gone := w.gone + Elements(old_))
    case AddMessage(u, m) =>
      if u !in w.boxes || m in w.owner then w
      else w.(boxes := w.boxes[u := w.boxes[u] + [m]],
              added := w.added + [(u, m)], owner := w.owner[m := u])
    case Connect(sid) =>
      if sid in w.sessions then w else w.(sessions := w.sessions[sid := Sess("", [], {}, Fresh)])
    case Login(sid, u, p) =>
      if sid in w.sessions && w.sessions[sid].phase != Over
         && u in w.boxes && u in w.passwords && w.passwords[u] == p
      then
        var s := w.sessions[sid];
        w.(sessions := w.sessions[sid := Sess(u, w.boxes[u], s.deleted, Open)])
      else w
    case Dele(sid, num) =>
      if !IsOpen(w, sid) then w
      else
        var s := w.sessions[sid];
        w.(sessions := w.sessions[sid := s.(deleted := MarksAfterDele(s.msgs, s.deleted, num))],
           named := if DeleOf(s.msgs, s.deleted, num).Ok?
                    then w.named[sid := NamedBy(w, sid)[num := s.msgs[num - 1]]] else w.named)
    case Rset(sid) =>
      if !IsOpen(w, sid) then w
      else w.(sessions := w.sessions[sid := w.sessions[sid].(deleted := {})], named := w.named[sid := map[]])
    case Quit(sid) =>
      if !IsOpen(w, sid) then w
      else
        var s := w.sessions[sid];
        var marked := Marked(s.msgs, s.deleted);
        var box := BoxOf(w, s.user);
        w.(boxes := Expunged(w.boxes, s.user, marked),
           sessions := w.sessions[sid := s.(phase := Over)],
           quits := w.quits + [Quitting(sid, s.user, marked, Only(box, marked), NamedBy(w, sid).Values)],
           gone := w.gone + Elements(Only(box, marked)))
    case Drop(sid) =>
      if sid !in w.sessions then w
      else w.(sessions := w.sessions[sid := w.sessions[sid].(phase := Over)])
  }

  ghost function Exec(w: World, events: seq<Event>): World
    decreases |events|
  {
    if events == [] then w else Exec(Step(w, events[0]), events[1..])
  }

  // ----- What the history says -----

  /** The messages added to one user, in order. */
  function AddedTo(added: seq<(string, Message)>, u: string): seq<Message> {
    if added == [] then []
    else
      var last := added[|added| - 1];
      if last.0 == u then AddedTo(added[..|added| - 1], u) + [last.1] else AddedTo(added[..|added| - 1], u)
  }

  /** The sum of the counts the Quits of one user's sessions returned. */
  function Counted(quits: seq<Quitting>, u: string): nat {
    if quits == [] then 0
    else
      var last := quits[|quits| - 1];
      Counted(quits[..|quits| - 1], u) + if last.user == u then |last.removed| else 0
  }

  predicate Distinct(ms: seq<Message>) {
    forall i, j :: 0 <= i < j < |ms| ==> ms[i] != ms[j]
  }

  // ----- The invariant -----

  /** Every message was added once, to its owner. */
  ghost predicate AddedOnce(w: World) {
    && (forall i, j :: 0 <= i < j < |w.added| ==> w.added[i].1 != w.added[j].1)
    && (forall i :: 0 <= i < |w.added| ==>
          w.added[i].1 in w.owner && w.owner[w.added[i].1] == w.added[i].0 && w.added[i].0 in w.boxes)
    && (forall m :: m in w.gone ==> m in w.owner)
  }

  /** Every box is what was added to it less what is gone: in particular the survivors keep
      the order in which they were appended. */
  ghost predicate BoxesOrdered(w: World) {
    forall u :: u in w.boxes ==> w.boxes[u] == Without(AddedTo(w.added, u), w.gone)
  }

  function BoxOf(w: World, u: string): seq<Message> {
    if u in w.boxes then w.boxes[u] else []
  }

  /** Messages are conserved, user by user. */
  ghost predicate Conserved(w: World) {
    forall u :: |AddedTo(w.added, u)| == |BoxOf(w, u)| + Counted(w.quits, u) + |AddedTo(w.lost, u)|
  }

  /** No message is counted twice, by one Quit or by two; a message counted was marked. */
  ghost predicate CountedOnce(w: World) {
    && (forall i :: 0 <= i < |w.quits| ==> QuitSane(w.quits[i], w.gone))
    && (forall i, j :: 0 <= i < j < |w.quits| ==> Disjoint(w.quits[i].removed, w.quits[j].removed))
  }

  ghost predicate QuitSane(q: Quitting, gone: set<Message>) {
    Distinct(q.removed) && (forall m :: m in q.removed ==> m in gone && m in q.marked)
  }

  ghost predicate Disjoint(a: seq<Message>, b: seq<Message>) {
    forall m :: m in a ==> m !in b
  }

  ghost predicate CountedBySome(w: World, m: Message) {
    exists i :: 0 <= i < |w.quits| && m in w.quits[i].removed
  }

  ghost predicate LostWithUser(w: World, m: Message) {
    exists i :: 0 <= i < |w.lost| && w.lost[i].1 == m
  }

  /** What is gone was removed by a Quit or went with a replaced user. */
  ghost predicate GoneExplained(w: World) {
    forall m :: m in w.gone ==> CountedBySome(w, m) || LostWithUser(w, m)
  }

  /** A snapshot's messages are different ones; before its login a session has no marks. */
  ghost predicate SessionsSane(w: World) {
    && (forall sid :: sid in w.sessions ==> Distinct(w.sessions[sid].msgs))
    && (forall sid :: sid in w.sessions && w.sessions[sid].phase == Fresh ==> w.sessions[sid].deleted == {})
  }

  ghost predicate Inv(w: World) {
    AddedOnce(w) && BoxesOrdered(w) && Conserved(w) && CountedOnce(w) && GoneExplained(w) && SessionsSane(w)
  }

  // ----- Lemmas about lists of messages -----

  lemma AddedToSnoc(added: seq<(string, Message)>, e: (string, Message), u: string)
    ensures AddedTo(added + [e], u) == if e.0 == u then AddedTo(added, u) + [e.1] else AddedTo(added, u)
  {
    assert (added + [e])[..|added|] == added;
  }

  lemma {:induction false} AddedToTagged(lost: seq<(string, Message)>, v: string, ms: seq<Message>, u: string)
    ensures |AddedTo(lost + Tagged(v, ms), u)| == |AddedTo(lost, u)| + if u == v then |ms| else 0
  {
    if ms == [] {
      assert lost + Tagged(v, ms) == lost;
    } else {
      var init, last := ms[..|ms| - 1], ms[|ms| - 1];
      AddedToTagged(lost, v, init, u);
      AddedToSnoc(lost + Tagged(v, init), (v, last), u);
      assert lost + Tagged(v, ms) == lost + Tagged(v, init) + [(v, last)];
    }
  }

  lemma CountedSnoc(quits: seq<Quitting>, q: Quitting, u: string)
    ensures Counted(quits + [q], u) == Counted(quits, u) + if q.user == u then |q.removed| else 0
  {
    assert (quits + [q])[..|quits|] == quits;
  }

  lemma WithoutSnoc(ms: seq<Message>, m: Message, a: set<Message>)
    ensures Without(ms + [m], a) == if m in a then Without(ms, a) else Without(ms, a) + [m]
  {
    assert (ms + [m])[..|ms|] == ms;
  }

  lemma {:induction false} WithoutMore(ms: seq<Message>, a: set<Message>, b: set<Message>)
    ensures Without(Without(ms, a), b) == Without(ms, a + b)
  {
    if ms != [] {
      var init, last := ms[..|ms| - 1], ms[|ms| - 1];
      assert ms == init + [last];
      WithoutMore(init, a, b);
      WithoutSnoc(init, last, a);
      WithoutSnoc(init, last, a + b);
      WithoutSnoc(Without(init, a), last, b);
    }
  }

  lemma {:induction false} WithoutSame(ms: seq<Message>, a: set<Message>, b: set<Message>)
    requires forall m :: m in ms ==> (m in a <==> m in b)
    ensures Without(ms, a) == Without(ms, b)
  {
    if ms != [] {
      assert ms[|ms| - 1] in ms;
      assert forall m :: m in ms[..|ms| - 1] ==> m in ms;
      WithoutSame(ms[..|ms| - 1], a, b);
    }
  }

  lemma {:induction false} WithoutAll(ms: seq<Message>, a: set<Message>)
    requires forall m :: m in ms ==> m in a
    ensures Without(ms, a) == []
  {
    if ms != [] {
      assert ms[|ms| - 1] in ms;
      assert forall m :: m in ms[..|ms| - 1] ==> m in ms;
      WithoutAll(ms[..|ms| - 1], a);
    }
  }

  lemma {:induction false} SublistsDistinct(ms: seq<Message>, a: set<Message>)
    requires Distinct(ms)
    ensures Distinct(Without(ms, a)) && Distinct(Only(ms, a))
  {
    if ms != [] {
      var init := ms[..|ms| - 1];
      SublistsDistinct(init, a);
      WithoutMembers(init, a);
      OnlyMembers(init, a);
    }
  }

  lemma {:induction false} AddedToIn(added: seq<(string, Message)>, u: string)
    ensures forall m :: m in AddedTo(added, u) ==> (u, m) in added
  {
    if added != [] {
      AddedToIn(added[..|added| - 1], u);
    }
  }

  lemma {:induction false} AddedToDistinct(added: seq<(string, Message)>, u: string)
    requires forall i, j :: 0 <= i < j < |added| ==> added[i].1 != added[j].1
    ensures Distinct(AddedTo(added, u))
  {
    if added != [] {
      var init := added[..|added| - 1];
      AddedToDistinct(init, u);
      AddedToIn(init, u);
    }
  }

  /** What the history says of one box. */
  lemma BoxFacts(w: World, u: string)
    requires AddedOnce(w) && BoxesOrdered(w)
    ensures Distinct(BoxOf(w, u))
    ensures forall m :: m in BoxOf(w, u) ==> m !in w.gone && m in w.owner && w.owner[m] == u
  {
    if u in w.boxes {
      AddedToDistinct(w.added, u);
      SublistsDistinct(AddedTo(w.added, u), w.gone);
      WithoutMembers(AddedTo(w.added, u), w.gone);
      AddedToIn(w.added, u);
    }
  }

  lemma {:induction false} NothingAdded(added: seq<(string, Message)>, u: string)
    requires forall i :: 0 <= i < |added| ==> added[i].0 != u
    ensures AddedTo(added, u) == []
  {
    if added != [] {
      NothingAdded(added[..|added| - 1], u);
    }
  }

  // ----- Every action keeps the invariant -----

  lemma AddMessageBoxes(w: World, u: string, m: Message)
    requires AddedOnce(w) && BoxesOrdered(w) && Conserved(w) && u in w.boxes && m !in w.owner
    ensures var w' := Step(w, AddMessage(u, m)); AddedOnce(w') && BoxesOrdered(w') && Conserved(w')
  {
    hide Without, AddedTo, Counted;
    var w' := Step(w, AddMessage(u, m));
    forall v
      ensures v in w'.boxes ==> w'.boxes[v] == Without(AddedTo(w'.added, v), w'.gone)
      ensures |AddedTo(w'.added, v)| == |BoxOf(w', v)| + Counted(w'.quits, v) + |AddedTo(w'.lost, v)|
    {
      AddedToSnoc(w.added, (u, m), v);
      WithoutSnoc(AddedTo(w.added, v), m, w.gone);
    }
  }

  lemma AddMessageKeeps(w: World, u: string, m: Message)
    requires Inv(w) && u in w.boxes && m !in w.owner
    ensures Inv(Step(w, AddMessage(u, m)))
  {
    hide AddedOnce, BoxesOrdered, Conserved, CountedOnce, GoneExplained, SessionsSane;
    AddMessageBoxes(w, u, m);
    RemovalsStay(w, Step(w, AddMessage(u, m)));
    SessionsStay(w, Step(w, AddMessage(u, m)));
  }

  lemma SessionsStay(w: World, w': World)
    requires SessionsSane(w) && w'.sessions == w.sessions
    ensures SessionsSane(w')
  {
  }

  /** As long as no Quit happens, what the Quits counted stays as it is. */
  lemma RemovalsStay(w: World, w': World)
    requires CountedOnce(w) && w'.quits == w.quits && w.gone <= w'.gone
    ensures CountedOnce(w')
    ensures GoneExplained(w) && w'.lost == w.lost && w'.gone == w.gone ==> GoneExplained(w')
  {
    forall i | 0 <= i < |w'.quits|
      ensures QuitSane(w'.quits[i], w'.gone)
    {
      assert QuitSane(w.quits[i], w.gone);
    }
    if GoneExplained(w) && w'.lost == w.lost && w'.gone == w.gone {
      StillExplained(w, w', {});
    }
  }

  /** What was explained stays explained as the history grows. */
  lemma StillExplained(w: World, w': World, more: set<Message>)
    requires GoneExplained(w) && w.quits <= w'.quits && w.lost <= w'.lost && w'.gone == w.gone + more
    requires forall m :: m in more ==> CountedBySome(w', m) || LostWithUser(w', m)
    ensures GoneExplained(w')
  {
    forall m | m in w.gone
      ensures CountedBySome(w', m) || LostWithUser(w', m)
    {
      if CountedBySome(w, m) {
        var i :| 0 <= i < |w.quits| && m in w.quits[i].removed;
        assert w'.quits[i] == w.quits[i];
      } else {
        var i :| 0 <= i < |w.lost| && w.lost[i].1 == m;
        assert w'.lost[i] == w.lost[i];
      }
    }
  }

  /** What removing messages of one box does to all boxes. */
  lemma Removal(w: World, u: string, remove: set<Message>, v: string)
    requires AddedOnce(w) && BoxesOrdered(w)
    requires forall m :: m in remove ==> m in BoxOf(w, u)
    ensures Without(AddedTo(w.added, v), w.gone + remove) ==
            if v == u then Without(BoxOf(w, u), remove) else BoxOf(w, v)
  {
    WithoutMore(AddedTo(w.added, v), w.gone, remove);
    BoxFacts(w, u);
    BoxFacts(w, v);
    if v !in w.boxes {
      NothingAdded(w.added, v);
    } else if v != u {
      WithoutNothing(w.boxes[v], remove);
    }
  }

  lemma AddUserBoxes(w: World, u: string, p: string)
    requires AddedOnce(w) && BoxesOrdered(w) && Conserved(w)
    ensures var w' := Step(w, AddUser(u, p)); AddedOnce(w') && BoxesOrdered(w') && Conserved(w')
  {
    hide Without, AddedTo, Counted;
    var w' := Step(w, AddUser(u, p));
    var box := BoxOf(w, u);
    BoxFacts(w, u);
    WithoutAll(box, Elements(box));
    forall v
      ensures v in w'.boxes ==> w'.boxes[v] == Without(AddedTo(w'.added, v), w'.gone)
      ensures |AddedTo(w'.added, v)| == |BoxOf(w', v)| + Counted(w'.quits, v) + |AddedTo(w'.lost, v)|
    {
      Removal(w, u, Elements(box), v);
      AddedToTagged(w.lost, u, box, v);
    }
  }

  lemma AddUserLoses(w: World, u: string, p: string)
    requires GoneExplained(w)
    ensures GoneExplained(Step(w, AddUser(u, p)))
  {
    var w' := Step(w, AddUser(u, p));
    var box := BoxOf(w, u);
    forall m | m in Elements(box)
      ensures LostWithUser(w', m)
    {
      var i :| 0 <= i < |box| && box[i] == m;
      assert w'.lost[|w.lost| + i].1 == m;
    }
    StillExplained(w, w', Elements(box));
  }

  lemma AddUserKeeps(w: World, u: string, p: string)
    requires Inv(w)
    ensures Inv(Step(w, AddUser(u, p)))
  {
    hide AddedOnce, BoxesOrdered, Conserved, CountedOnce, GoneExplained, SessionsSane;
    AddUserBoxes(w, u, p);
    AddUserLoses(w, u, p);
    RemovalsStay(w, Step(w, AddUser(u, p)));
    SessionsStay(w, Step(w, AddUser(u, p)));
  }

  lemma QuitBoxes(w: World, sid: nat)
    requires AddedOnce(w) && BoxesOrdered(w) && Conserved(w) && IsOpen(w, sid)
    ensures var w' := Step(w, Quit(sid)); AddedOnce(w') && BoxesOrdered(w') && Conserved(w')
  {
    hide AddedTo, Counted;
    var w' := Step(w, Quit(sid));
    var u, marked := w.sessions[sid].user, Marked(w.sessions[sid].msgs, w.sessions[sid].deleted);
    var box := BoxOf(w, u);
    var removed := Only(box, marked);
    BoxFacts(w, u);
    OnlyMembers(box, marked);
    WithoutSame(box, marked, Elements(removed));
    forall v
      ensures v in w'.boxes ==> w'.boxes[v] == Without(AddedTo(w'.added, v), w'.gone)
      ensures |AddedTo(w'.added, v)| == |BoxOf(w', v)| + Counted(w'.quits, v) + |AddedTo(w'.lost, v)|
    {
      Removal(w, u, Elements(removed), v);
      CountedSnoc(w.quits, Quitting(sid, u, marked, removed, NamedBy(w, sid).Values), v);
    }
  }

  lemma QuitCountedOnce(w: World, sid: nat)
    requires AddedOnce(w) && BoxesOrdered(w) && CountedOnce(w) && GoneExplained(w) && IsOpen(w, sid)
    ensures CountedOnce(Step(w, Quit(sid))) && GoneExplained(Step(w, Quit(sid)))
  {
    var w' := Step(w, Quit(sid));
    var q := w'.quits[|w.quits|];
    var box := BoxOf(w, q.user);
    BoxFacts(w, q.user);
    OnlyMembers(box, q.marked);
    SublistsDistinct(box, q.marked);
    StillExplained(w, w', Elements(q.removed));
  }

  lemma QuitKeeps(w: World, sid: nat)
    requires Inv(w) && IsOpen(w, sid)
    ensures Inv(Step(w, Quit(sid)))
  {
    hide AddedOnce, BoxesOrdered, Conserved, CountedOnce, GoneExplained;
    QuitBoxes(w, sid);
    QuitCountedOnce(w, sid);
  }

  /** Logging in, marking, unmarking and leaving change sessions only. */
  lemma StoreKept(w: World, e: Event)
    requires !e.AddUser? && !e.AddMessage? && !e.Quit?
    ensures var w' := Step(w, e);
            w'.boxes == w.boxes && w'.added == w.added && w'.owner == w.owner && w'.quits == w.quits
            && w'.lost == w.lost && w'.gone == w.gone
  {
  }

  lemma SessionActionBoxes(w: World, e: Event)
    requires AddedOnce(w) && BoxesOrdered(w) && Conserved(w) && CountedOnce(w) && GoneExplained(w)
    requires !e.AddUser? && !e.AddMessage? && !e.Quit?
    ensures var w' := Step(w, e);
            AddedOnce(w') && BoxesOrdered(w') && Conserved(w') && CountedOnce(w') && GoneExplained(w')
  {
    hide Step, CountedOnce, GoneExplained, Without, AddedTo, Counted;
    var w' := Step(w, e);
    StoreKept(w, e);
    RemovalsStay(w, w');
    assert Conserved(w') by {
      assert forall u :: BoxOf(w', u) == BoxOf(w, u);
    }
  }

  lemma SessionActionKeeps(w: World, e: Event)
    requires Inv(w)
    requires !e.AddUser? && !e.AddMessage? && !e.Quit?
    ensures Inv(Step(w, e))
  {
    hide CountedOnce, GoneExplained, Conserved;
    SessionActionBoxes(w, e);
    if e.Login? {
      BoxFacts(w, e.user);
    }
  }

  lemma StepKeeps(w: World, e: Event)
    requires Inv(w)
    ensures Inv(Step(w, e))
  {
    match e
    case AddUser(u, p) => AddUserKeeps(w, u, p);
    case AddMessage(u, m) =>
      if u in w.boxes && m !in w.owner {
        AddMessageKeeps(w, u, m);
      }
    case Quit(sid) =>
      if IsOpen(w, sid) {
        QuitKeeps(w, sid);
      }
    case _ => SessionActionKeeps(w, e);
  }

  lemma {:induction false} ExecKeeps(w: World, events: seq<Event>)
    requires Inv(w)
    ensures Inv(Exec(w, events))
    decreases |events|
  {
    if events != [] {
      StepKeeps(w, events[0]);
      ExecKeeps(Step(w, events[0]), events[1..]);
    }
  }

  // ----- What marks mean -----

  /** The session's marks are numbers of its snapshot. */
  ghost predicate Within(w: World, sid: nat) {
    sid in w.sessions ==> forall k :: k in w.sessions[sid].deleted ==> 1 <= k <= |w.sessions[sid].msgs|
  }

  /** The session's marks denote the messages that its Dele commands named. */
  ghost predicate Faithful(w: World, sid: nat) {
    if sid in w.sessions then
      var s := w.sessions[sid];
      && NamedBy(w, sid).Keys == s.deleted
      && forall k :: k in s.deleted ==> 1 <= k <= |s.msgs| && s.msgs[k - 1] == NamedBy(w, sid)[k]
    else NamedBy(w, sid) == map[]
  }

  /** The session is open and logs in again, so that the box becomes its snapshot. */
  predicate LogsInAgain(w: World, e: Event, sid: nat) {
    e.Login? && e.sid == sid && IsOpen(w, sid)
    && e.user in w.boxes && e.user in w.passwords && w.passwords[e.user] == e.password
  }

  /** What a further login has to find for the marks to stay within the snapshot. */
  predicate MarksFit(w: World, e: Event, sid: nat) {
    LogsInAgain(w, e, sid) ==> forall k :: k in w.sessions[sid].deleted ==> k <= |w.boxes[e.user]|
  }

  /** And for them to go on denoting the same messages. */
  predicate MarksMatch(w: World, e: Event, sid: nat) {
    LogsInAgain(w, e, sid) ==>
      var s, box := w.sessions[sid], w.boxes[e.user];
      forall k :: k in s.deleted ==> 1 <= k <= |s.msgs| && k <= |box| && box[k - 1] == s.msgs[k - 1]
  }

  lemma StepWithin(w: World, e: Event, sid: nat)
    requires SessionsSane(w) && Within(w, sid)
    ensures Within(Step(w, e), sid) <==> MarksFit(w, e, sid)
  {
    if (e.Dele? || e.Login? || e.Rset?) && e.sid == sid {
      OwnWithin(w, e, sid);
    } else {
      OtherwiseKept(w, e, sid);
      hide Step;
    }
  }

  lemma OwnWithin(w: World, e: Event, sid: nat)
    requires SessionsSane(w) && Within(w, sid)
    requires (e.Dele? || e.Login? || e.Rset?) && e.sid == sid
    ensures Within(Step(w, e), sid) <==> MarksFit(w, e, sid)
  {
    match e
    case Dele(_, num) => DeleWithin(w, sid, num);
    case Login(_, u, p) => LoginWithin(w, sid, u, p);
    case Rset(_) =>
  }

  lemma DeleWithin(w: World, sid: nat, num: nat)
    requires Within(w, sid)
    ensures Within(Step(w, Dele(sid, num)), sid)
  {
  }

  lemma LoginWithin(w: World, sid: nat, u: string, p: string)
    requires SessionsSane(w) && Within(w, sid)
    ensures Within(Step(w, Login(sid, u, p)), sid) <==> MarksFit(w, Login(sid, u, p), sid)
  {
    var e := Login(sid, u, p);
    if LogsInAgain(w, e, sid) {
      assert Step(w, e).sessions[sid] == Sess(u, w.boxes[u], w.sessions[sid].deleted, Open);
    }
  }

  lemma DeleFaithful(w: World, sid: nat, num: nat)
    requires Faithful(w, sid)
    ensures Faithful(Step(w, Dele(sid, num)), sid)
  {
    var w' := Step(w, Dele(sid, num));
    if IsOpen(w, sid) && DeleOf(w.sessions[sid].msgs, w.sessions[sid].deleted, num).Ok? {
      assert NamedBy(w', sid) == NamedBy(w, sid)[num := w.sessions[sid].msgs[num - 1]];
    }
  }

  lemma LoginFaithful(w: World, sid: nat, u: string, p: string)
    requires SessionsSane(w) && Faithful(w, sid)
    ensures Faithful(Step(w, Login(sid, u, p)), sid) <==> MarksMatch(w, Login(sid, u, p), sid)
  {
    if LogsInAgain(w, Login(sid, u, p), sid) {
      var s, box := w.sessions[sid], w.boxes[u];
      assert Step(w, Login(sid, u, p)).sessions[sid] == Sess(u, box, s.deleted, Open);
      assert forall k :: k in s.deleted ==> s.msgs[k - 1] == NamedBy(w, sid)[k];
    }
  }

  lemma RsetFaithful(w: World, sid: nat)
    requires IsOpen(w, sid)
    ensures Faithful(Step(w, Rset(sid)), sid)
  {
    assert NamedBy(Step(w, Rset(sid)), sid) == map[];
    assert Step(w, Rset(sid)).sessions[sid].deleted == {};
  }

  lemma KeptFaithful(w: World, w': World, sid: nat)
    requires Faithful(w, sid) && NamedBy(w', sid) == NamedBy(w, sid)
    requires if sid in w.sessions then
               sid in w'.sessions && w'.sessions[sid].msgs == w.sessions[sid].msgs
               && w'.sessions[sid].deleted == w.sessions[sid].deleted
             else sid in w'.sessions ==> w'.sessions[sid] == Sess("", [], {}, Fresh)
    ensures Faithful(w', sid)
  {
  }

  lemma StepFaithful(w: World, e: Event, sid: nat)
    requires SessionsSane(w) && Faithful(w, sid)
    ensures Faithful(Step(w, e), sid) <==> MarksMatch(w, e, sid)
  {
    hide Step, Faithful;
    if e.Dele? && e.sid == sid {
      DeleFaithful(w, sid, e.num);
    } else if e.Login? && e.sid == sid {
      LoginFaithful(w, sid, e.user, e.password);
    } else if e.Rset? && e.sid == sid && IsOpen(w, sid) {
      RsetFaithful(w, sid);
    } else {
      OtherwiseKept(w, e, sid);
      KeptFaithful(w, Step(w, e), sid);
    }
  }

  lemma OtherwiseKept(w: World, e: Event, sid: nat)
    requires !(e.Dele? && e.sid == sid) && !(e.Login? && e.sid == sid) && !(e.Rset? && e.sid == sid && IsOpen(w, sid))
    ensures NamedBy(Step(w, e), sid) == NamedBy(w, sid)
    ensures var w' := Step(w, e);
            if sid in w.sessions then
              sid in w'.sessions && w'.sessions[sid].msgs == w.sessions[sid].msgs
              && w'.sessions[sid].deleted == w.sessions[sid].deleted
            else sid in w'.sessions ==> w'.sessions[sid] == Sess("", [], {}, Fresh)
  {
  }

  ghost predicate AlwaysWithin(w: World, events: seq<Event>, sid: nat)
    decreases |events|
  {
    Within(w, sid) && (events == [] || AlwaysWithin(Step(w, events[0]), events[1..], sid))
  }

  ghost predicate AlwaysFaithful(w: World, events: seq<Event>, sid: nat)
    decreases |events|
  {
    Faithful(w, sid) && (events == [] || AlwaysFaithful(Step(w, events[0]), events[1..], sid))
  }

  ghost predicate LoginsFit(w: World, events: seq<Event>, sid: nat)
    decreases |events|
  {
    events == [] || (MarksFit(w, events[0], sid) && LoginsFit(Step(w, events[0]), events[1..], sid))
  }

  ghost predicate LoginsMatch(w: World, events: seq<Event>, sid: nat)
    decreases |events|
  {
    events == [] || (MarksMatch(w, events[0], sid) && LoginsMatch(Step(w, events[0]), events[1..], sid))
  }

  lemma {:induction false} WithinExactly(w: World, events: seq<Event>, sid: nat)
    requires Inv(w) && Within(w, sid)
    ensures AlwaysWithin(w, events, sid) <==> LoginsFit(w, events, sid)
    decreases |events|
  {
    hide Inv, Within, MarksFit, Step;
    if events != [] {
      var w1 := Step(w, events[0]);
      StepKeeps(w, events[0]);
      Sane(w);
      StepWithin(w, events[0], sid);
      if Within(w1, sid) {
        WithinExactly(w1, events[1..], sid);
      }
    }
  }

  lemma {:induction false} FaithfulExactly(w: World, events: seq<Event>, sid: nat)
    requires Inv(w) && Faithful(w, sid)
    ensures AlwaysFaithful(w, events, sid) <==> LoginsMatch(w, events, sid)
    decreases |events|
  {
    hide Inv, Faithful, MarksMatch, Step;
    if events != [] {
      var w1 := Step(w, events[0]);
      StepKeeps(w, events[0]);
      Sane(w);
      StepFaithful(w, events[0], sid);
      if Faithful(w1, sid) {
        FaithfulExactly(w1, events[1..], sid);
      }
    }
  }

  lemma Sane(w: World)
    requires Inv(w)
    ensures SessionsSane(w)
  {
  }

  /** In every state reachable from the empty store by any interleaving: messages are conserved,
      none is counted twice, survivors keep the order of appending, and what is gone was counted
      by a Quit that had it marked or went with a replaced user. A session's marks are numbers of
      its snapshot in every state of a run if and only if whenever it logs in again they are
      numbers of the box it finds; and they denote the messages its Dele commands named in every
      state if and only if whenever it logs in again they denote the same messages in the box. */
  lemma Reachable(events: seq<Event>)
    ensures Inv(Exec(EMPTY, events))
    ensures forall sid: nat :: AlwaysWithin(EMPTY, events, sid) <==> LoginsFit(EMPTY, events, sid)
    ensures forall sid: nat :: AlwaysFaithful(EMPTY, events, sid) <==> LoginsMatch(EMPTY, events, sid)
  {
    ExecKeeps(EMPTY, events);
    assert Inv(EMPTY) by {
      ExecKeeps(EMPTY, []);
    }
    hide Inv;
    forall sid: nat
      ensures AlwaysWithin(EMPTY, events, sid) <==> LoginsFit(EMPTY, events, sid)
      ensures AlwaysFaithful(EMPTY, events, sid) <==> LoginsMatch(EMPTY, events, sid)
    {
      WithinExactly(EMPTY, events, sid);
      FaithfulExactly(EMPTY, events, sid);
    }
  }

  // ----- What Quit removes was named -----

  ghost predicate QuitsNamed(w: World, sid: nat) {
    forall i, m :: 0 <= i < |w.quits| && w.quits[i].sid == sid && m in w.quits[i].removed ==> m in w.quits[i].named
  }

  lemma StepQuitsNamed(w: World, e: Event, sid: nat)
    requires Faithful(w, sid) && QuitsNamed(w, sid)
    ensures QuitsNamed(Step(w, e), sid)
  {
    if e == Quit(sid) && IsOpen(w, sid) {
      QuitNamed(w, sid);
    }
  }

  lemma RemovedMarked(ms: seq<Message>, remove: set<Message>, m: Message)
    requires m in Only(ms, remove)
    ensures m in ms && m in remove
  {
    OnlyMembers(ms, remove);
  }

  lemma QuitNamed(w: World, sid: nat)
    requires Faithful(w, sid) && QuitsNamed(w, sid) && IsOpen(w, sid)
    ensures QuitsNamed(Step(w, Quit(sid)), sid)
  {
    var s, w' := w.sessions[sid], Step(w, Quit(sid));
    var box, marked := BoxOf(w, s.user), Marked(s.msgs, s.deleted);
    OnlyMembers(box, marked);
    MarkedWasNamed(w, sid);
    var q := Quitting(sid, s.user, marked, Only(box, marked), NamedBy(w, sid).Values);
    assert w'.quits == w.quits + [q];
    hide Step, Faithful;
    forall i, m | 0 <= i < |w'.quits| && w'.quits[i].sid == sid && m in w'.quits[i].removed
      ensures m in w'.quits[i].named
    {
      if i < |w.quits| {
        assert w'.quits[i] == w.quits[i];
      } else {
        RemovedMarked(box, marked, m);
      }
    }
  }

  lemma MarkedWasNamed(w: World, sid: nat)
    requires Faithful(w, sid) && sid in w.sessions
    ensures Marked(w.sessions[sid].msgs, w.sessions[sid].deleted) <= NamedBy(w, sid).Values
  {
    var s := w.sessions[sid];
    forall m | m in Marked(s.msgs, s.deleted)
      ensures m in NamedBy(w, sid).Values
    {
      var k :| k in s.deleted && 1 <= k <= |s.msgs| && s.msgs[k - 1] == m;
      assert NamedBy(w, sid)[k] == m;
    }
  }

  lemma {:induction false} ExecQuitsNamed(w: World, events: seq<Event>, sid: nat)
    requires Inv(w) && Faithful(w, sid) && QuitsNamed(w, sid) && LoginsMatch(w, events, sid)
    ensures QuitsNamed(Exec(w, events), sid)
    decreases |events|
  {
    hide Inv, Faithful, MarksMatch, Step, QuitsNamed;
    if events != [] {
      StepKeeps(w, events[0]);
      Sane(w);
      StepFaithful(w, events[0], sid);
      StepQuitsNamed(w, events[0], sid);
      ExecQuitsNamed(Step(w, events[0]), events[1..], sid);
    }
  }

  /** As long as a session's marks keep their meaning its Quits remove only messages that its Dele
      commands named. */
  lemma RemovedWasNamed(events: seq<Event>, sid: nat)
    requires LoginsMatch(EMPTY, events, sid)
    ensures QuitsNamed(Exec(EMPTY, events), sid)
  {
    ExecKeeps(EMPTY, []);
    ExecQuitsNamed(EMPTY, events, sid);
  }

  lemma {:induction false} ExecSnoc(w: World, events: seq<Event>, e: Event)
    ensures Exec(w, events + [e]) == Step(Exec(w, events), e)
    decreases |events|
  {
    hide Step;
    if events == [] {
      assert [e][1..] == [];
      assert Exec(w, [e]) == Exec(Step(w, e), []);
    } else {
      assert (events + [e])[1..] == events[1..] + [e];
      ExecSnoc(Step(w, events[0]), events[1..], e);
    }
  }

  /** Event `i` is a Dele that marked the message `m`, and no later Rset took it back. */
  ghost predicate Named(events: seq<Event>, i: nat, sid: nat, k: nat, m: Message)
    requires i < |events|
  {
    var w := Exec(EMPTY, events[..i]);
    && events[i] == Dele(sid, k) && IsOpen(w, sid)
    && DeleOf(w.sessions[sid].msgs, w.sessions[sid].deleted, k).Ok? && w.sessions[sid].msgs[k - 1] == m
    && forall j :: i < j < |events| && events[j] == Rset(sid) ==> !IsOpen(Exec(EMPTY, events[..j]), sid)
  }

  lemma NamedStep(w: World, e: Event, sid: nat, k: nat)
    requires k in NamedBy(Step(w, e), sid)
    ensures var m := NamedBy(Step(w, e), sid)[k];
            || (k in NamedBy(w, sid) && NamedBy(w, sid)[k] == m && (e == Rset(sid) ==> !IsOpen(w, sid)))
            || (e == Dele(sid, k) && IsOpen(w, sid)
                && DeleOf(w.sessions[sid].msgs, w.sessions[sid].deleted, k).Ok? && w.sessions[sid].msgs[k - 1] == m)
  {
  }

  /** What the history has as named was named by a Dele of that session. */
  lemma {:induction false} NamedByDele(events: seq<Event>, sid: nat, k: nat)
    requires k in NamedBy(Exec(EMPTY, events), sid)
    ensures exists i :: 0 <= i < |events| && Named(events, i, sid, k, NamedBy(Exec(EMPTY, events), sid)[k])
    decreases |events|
  {
    hide Step;
    if events != [] {
      var init, e := events[..|events| - 1], events[|events| - 1];
      var w := Exec(EMPTY, init);
      assert events == init + [e];
      ExecSnoc(EMPTY, init, e);
      NamedStep(w, e, sid, k);
      var m := NamedBy(Exec(EMPTY, events), sid)[k];
      if k in NamedBy(w, sid) && NamedBy(w, sid)[k] == m && (e == Rset(sid) ==> !IsOpen(w, sid)) {
        NamedByDele(init, sid, k);
        var i :| 0 <= i < |init| && Named(init, i, sid, k, m);
        assert forall j :: 0 <= j <= |init| ==> events[..j] == init[..j];
        assert Named(events, i, sid, k, m);
      } else {
        assert Named(events, |init|, sid, k, m);
      }
    }
  }

  /** Whenever the user is added, the user is new or has an empty box. */
  ghost predicate ReplacedEmptyOnly(w: World, events: seq<Event>, u: string)
    decreases |events|
  {
    events == [] ||
    ((events[0].AddUser? && events[0].user == u ==> BoxOf(w, u) == [])
     && ReplacedEmptyOnly(Step(w, events[0]), events[1..], u))
  }

  lemma StepLost(w: World, e: Event, u: string)
    ensures |AddedTo(Step(w, e).lost, u)| ==
            |AddedTo(w.lost, u)| + if e.AddUser? && e.user == u then |BoxOf(w, u)| else 0
  {
    if e.AddUser? {
      AddedToTagged(w.lost, e.user, BoxOf(w, e.user), u);
    }
  }

  lemma {:induction false} LostOnlyByReplacing(w: World, events: seq<Event>, u: string)
    ensures |AddedTo(Exec(w, events).lost, u)| >= |AddedTo(w.lost, u)|
    ensures |AddedTo(Exec(w, events).lost, u)| == |AddedTo(w.lost, u)| <==> ReplacedEmptyOnly(w, events, u)
    decreases |events|
  {
    hide Step, AddedTo;
    if events != [] {
      StepLost(w, events[0], u);
      LostOnlyByReplacing(Step(w, events[0]), events[1..], u);
    }
  }

  /** Conservation as the store promises it, with its exact condition: the messages added to a
      user are the remaining ones and those counted by the user's Quits if and only if every
      time the user was added the user's box was empty. */
  lemma Conservation(events: seq<Event>, u: string)
    ensures var w := Exec(EMPTY, events);
            |AddedTo(w.added, u)| == |BoxOf(w, u)| + Counted(w.quits, u)
            <==> ReplacedEmptyOnly(EMPTY, events, u)
  {
    Reachable(events);
    LostOnlyByReplacing(EMPTY, events, u);
  }

  /** Replacing a user breaks it, by exactly the messages the replaced user still had. */
  lemma ReplacementLoses(u: string, p: string, m: Message)
    ensures var w := Exec(EMPTY, [AddUser(u, p), AddMessage(u, m), AddUser(u, p)]);
            |AddedTo(w.added, u)| == |BoxOf(w, u)| + Counted(w.quits, u) + 1
  {
    var w1 := Step(EMPTY, AddUser(u, p));
    var w2 := Step(w1, AddMessage(u, m));
    var w3 := Step(w2, AddUser(u, p));
    ExecThree(EMPTY, AddUser(u, p), AddMessage(u, m), AddUser(u, p));
    AddedToSnoc([], (u, m), u);
    assert w2.added == [] + [(u, m)];
    assert AddedTo(w3.added, u) == [m];
  }

  lemma ExecThree(w: World, a: Event, b: Event, c: Event)
    ensures Exec(w, [a, b, c]) == Step(Step(Step(w, a), b), c)
  {
    assert [a, b, c][1..] == [b, c] && [b, c][1..] == [c] && [c][1..] == [];
    assert Exec(w, [a, b, c]) == Exec(Step(w, a), [b, c]);
    assert Exec(Step(w, a), [b, c]) == Exec(Step(Step(w, a), b), [c]);
  }

  /** A message disappears from a box only when a session that had it marked quits, or when its
      user is replaced; and where the session's marks kept their meaning, one of its Dele commands
      had named it. */
  lemma DisappearsOnlyMarked(w: World, e: Event, u: string, m: Message)
    requires m in BoxOf(w, u) && m !in BoxOf(Step(w, e), u)
    ensures (e.AddUser? && e.user == u)
            || (e.Quit? && IsOpen(w, e.sid) && w.sessions[e.sid].user == u
                && m in Marked(w.sessions[e.sid].msgs, w.sessions[e.sid].deleted)
                && (Faithful(w, e.sid) ==> exists k :: k in NamedBy(w, e.sid) && NamedBy(w, e.sid)[k] == m))
  {
    if e.Quit? && IsOpen(w, e.sid) {
      var s := w.sessions[e.sid];
      WithoutMembers(BoxOf(w, u), Marked(s.msgs, s.deleted));
      if Faithful(w, e.sid) {
        var k :| k in s.deleted && 1 <= k <= |s.msgs| && s.msgs[k - 1] == m;
        assert k in NamedBy(w, e.sid);
      }
    }
  }

  /** The count of the latest Quit. */
  function LastCount(w: World): nat {
    if w.quits == [] then 0 else |w.quits[|w.quits| - 1].removed|
  }

  /** The count a Quit returns is the number of messages in its record. */
  lemma QuitReturns(w: World, sid: nat)
    requires IsOpen(w, sid)
    ensures var w', s := Step(w, Quit(sid)), w.sessions[sid];
            |w'.quits| == |w.quits| + 1
            && LastCount(w') == CountRemoved(w.boxes, s.user, Marked(s.msgs, s.deleted))
            && w'.boxes == Expunged(w.boxes, s.user, Marked(s.msgs, s.deleted))
  {
    var s := w.sessions[sid];
    var removed := Only(BoxOf(w, s.user), Marked(s.msgs, s.deleted));
    assert |removed| + |Without(BoxOf(w, s.user), Marked(s.msgs, s.deleted))| == |BoxOf(w, s.user)|;
  }

  predicate ActsAs(e: Event, sid: nat) {
    match e
    case AddUser(_, _) => false
    case AddMessage(_, _) => false
    case Connect(s) => s == sid
    case Login(s, _, _) => s == sid
    case Dele(s, _) => s == sid
    case Rset(s) => s == sid
    case Quit(s) => s == sid
    case Drop(s) => s == sid
  }

  predicate LogsIn(e: Event, sid: nat) {
    e.Login? && e.sid == sid
  }

  lemma IsolationStep(w: World, e: Event, sid: nat)
    requires sid in w.sessions && w.sessions[sid].phase != Fresh
    ensures var w' := Step(w, e);
            && sid in w'.sessions
            && w'.sessions[sid].phase != Fresh
            && (!LogsIn(e, sid) ==>
                  w'.sessions[sid].msgs == w.sessions[sid].msgs && w'.sessions[sid].user == w.sessions[sid].user)
            && (!ActsAs(e, sid) ==> w'.sessions[sid] == w.sessions[sid])
  {
  }

  /** Snapshot isolation: from its login on, until it logs in again, a session's message numbers
      denote the same messages whatever happens, and what other sessions do leaves its marks
      alone too. */
  lemma {:induction false} Isolation(w: World, events: seq<Event>, sid: nat)
    requires sid in w.sessions && w.sessions[sid].phase != Fresh
    ensures var w' := Exec(w, events);
            && sid in w'.sessions
            && ((forall i :: 0 <= i < |events| ==> !LogsIn(events[i], sid)) ==>
                  w'.sessions[sid].msgs == w.sessions[sid].msgs && w'.sessions[sid].user == w.sessions[sid].user)
            && ((forall i :: 0 <= i < |events| ==> !ActsAs(events[i], sid)) ==>
                  w'.sessions[sid] == w.sessions[sid])
    decreases |events|
  {
    if events != [] {
      IsolationStep(w, events[0], sid);
      Isolation(Step(w, events[0]), events[1..], sid);
    }
  }
}
