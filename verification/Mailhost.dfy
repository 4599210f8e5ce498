/** The store and its session objects together: each of their operations, run under the store's
    lock, is one action of the transition system of interleaved sessions. */
module Mailhost {
  import opened Maildrop
  import opened Interleaving

  class Host {
    const store: Store
    var sessions: map<nat, MailSession>
    var phases: map<nat, Phase>

    constructor ()
      ensures fresh(store) && Valid() && Shows(EMPTY)
    {
      store := new Store();
      sessions, phases := map[], map[];
    }

    /** Session objects belong to this store and to one connection each. */
    ghost predicate Valid()
      reads this, store
    {
      && store.Valid()
      && phases.Keys == sessions.Keys
      && (forall sid :: sid in sessions ==> sessions[sid].store == store)
      && (forall i, j :: i in sessions && j in sessions && i != j ==> sessions[i] != sessions[j])
    }

    ghost function View(sid: nat): Sess
      requires sid in sessions && sid in phases
      reads this, sessions.Values
    {
      Sess(sessions[sid].username, sessions[sid].msgs, sessions[sid].deleted, phases[sid])
    }

    ghost predicate ShowsSessions(all: map<nat, Sess>)
      requires Valid()
      reads this, store, sessions.Values
    {
      && sessions.Keys == all.Keys
      && (forall sid :: sid in sessions ==> View(sid) == all[sid])
    }

    /** The objects are as the world `w` says. */
    ghost predicate Shows(w: World)
      requires Valid()
      reads this, store, store.users.Values, sessions.Values
    {
      store.Contents() == w.boxes && store.Passwords() == w.passwords && ShowsSessions(w.sessions)
    }

    lemma PhaseShown(sid: nat, all: map<nat, Sess>)
      requires Valid() && ShowsSessions(all)
      ensures sid in sessions <==> sid in all
      ensures sid in sessions ==> phases[sid] == all[sid].phase
    {
    }

    /** Moves a connection to its next phase. */
    method Become(sid: nat, phase: Phase, ghost all: map<nat, Sess>)
      requires Valid() && ShowsSessions(all) && sid in all
      modifies this`phases
      ensures Valid() && ShowsSessions(all[sid := all[sid].(phase := phase)])
      ensures store.Contents() == old(store.Contents()) && store.Passwords() == old(store.Passwords())
    {
      phases := phases[sid := phase];
    }

    method AddUser(username: string, password: string, ghost w: World)
      requires Valid() && Shows(w)
      modifies store
      ensures Valid() && Shows(Step(w, Event.AddUser(username, password)))
    {
      store.AddUser(username, password);
    }

    /** The message is a new object, so it has never been in the store before. */
    method AddMessage(username: string, uid: string, data: string, ghost w: World)
      returns (ok: bool, ghost added: seq<Message>)
      requires Valid() && Shows(w)
      modifies store.users.Values
      ensures ok <==> username in w.boxes
      ensures ok ==> |added| == 1 && fresh(added[0]) && added[0] !in w.owner
                     && added[0].uid == uid && added[0].data == data
      ensures Valid() && Shows(if ok then Step(w, Event.AddMessage(username, added[0])) else w)
    {
      hide Step, ShowsSessions, Store.Contents, Store.Passwords, Store.Valid;
      ok, added := store.AddMessage(username, uid, data);
      if ok {
        assert added == [added[0]];
        AddMessageStep(w, username, added[0]);
      }
    }

    method Connect(sid: nat, ghost w: World)
      requires Valid() && Shows(w)
      modifies this`sessions, this`phases
      ensures Valid() && Shows(Step(w, Event.Connect(sid)))
    {
      hide Step, Store.Contents, Store.Passwords, Store.Valid;
      ConnectStep(w, sid);
      if sid in sessions {
        return;
      }
      var s := new MailSession(store);
      sessions, phases := sessions[sid := s], phases[sid := Fresh];
    }

    /** The session object of a login: its marks stay as they are. */
    method LoginSession(sid: nat, username: string, password: string, ghost w: World)
      returns (ok: bool, ghost all: map<nat, Sess>)
      requires Valid() && Shows(w) && sid in sessions
      modifies sessions.Values
      ensures Valid() && ShowsSessions(all)
      ensures store.Contents() == w.boxes && store.Passwords() == w.passwords
      ensures ok <==> username in w.boxes && username in w.passwords && w.passwords[username] == password
      ensures all == if !ok then w.sessions
                     else w.sessions[sid := w.sessions[sid].(user := username, msgs := w.boxes[username])]
    {
      hide Store.Valid;
      ghost var s := View(sid);
      var r := sessions[sid].Login(username, password);
      ok := r.Ok?;
      all := if !ok then w.sessions else w.sessions[sid := s.(user := username, msgs := w.boxes[username])];
    }

    /** A first login, or a further one on an open session, which keeps its marks. */
    method Login(sid: nat, username: string, password: string, ghost w: World)
      requires Valid() && Shows(w)
      modifies this`phases, sessions.Values
      ensures Valid() && Shows(Step(w, Event.Login(sid, username, password)))
    {
      hide Step, ShowsSessions, Store.Contents, Store.Passwords, Store.Valid;
      LoginStep(w, sid, username, password);
      PhaseShown(sid, w.sessions);
      if sid !in sessions || phases[sid] == Over {
        return;
      }
      var ok, all := LoginSession(sid, username, password, w);
      if ok {
        var next := Open;
        Become(sid, next, all);
        assert Shows(w.(sessions := all[sid := all[sid].(phase := next)]));
        assert all[sid := all[sid].(phase := next)]
            == w.sessions[sid := Sess(username, all[sid].msgs, all[sid].deleted, next)];
      }
    }

    method Dele(sid: nat, num: nat, ghost w: World)
      requires Valid() && Shows(w)
      modifies sessions.Values
      ensures Valid() && Shows(Step(w, Event.Dele(sid, num)))
    {
      hide Store.Contents, Store.Passwords, Store.Valid;
      if sid in sessions && phases[sid] == Open {
        var r := sessions[sid].Dele(num);
      }
    }

    method Rset(sid: nat, ghost w: World)
      requires Valid() && Shows(w)
      modifies sessions.Values
      ensures Valid() && Shows(Step(w, Event.Rset(sid)))
    {
      hide Store.Contents, Store.Passwords, Store.Valid;
      if sid in sessions && phases[sid] == Open {
        sessions[sid].Rset();
      }
    }

    /** The session object of a Quit changes the store and no session. */
    method QuitSession(sid: nat, ghost w: World) returns (expunged: nat)
      requires Valid() && Shows(w) && sid in sessions
      modifies store.users.Values
      ensures Valid() && ShowsSessions(w.sessions) && store.Passwords() == w.passwords
      ensures var s := w.sessions[sid];
              && store.Contents() == Expunged(w.boxes, s.user, Marked(s.msgs, s.deleted))
              && expunged == CountRemoved(w.boxes, s.user, Marked(s.msgs, s.deleted))
    {
      hide Expunged, CountRemoved, Marked;
      expunged := sessions[sid].Quit();
    }

    /** What Quit returns is the size of its record in the history. */
    method Quit(sid: nat, ghost w: World) returns (expunged: nat)
      requires Valid() && Shows(w)
      modifies this`phases, store.users.Values
      ensures Valid() && Shows(Step(w, Event.Quit(sid)))
      ensures IsOpen(w, sid) ==> expunged == LastCount(Step(w, Event.Quit(sid)))
    {
      hide Step, Expunged, CountRemoved, Marked, Store.Contents, Store.Passwords, Store.Valid;
      QuitStep(w, sid);
      if sid !in sessions || phases[sid] != Open {
        return 0;
      }
      QuitReturns(w, sid);
      expunged := QuitSession(sid, w);
      Become(sid, Over, w.sessions);
    }

    method Drop(sid: nat, ghost w: World)
      requires Valid() && Shows(w)
      modifies this`phases
      ensures Valid() && Shows(Step(w, Event.Drop(sid)))
    {
      hide Step, Store.Contents, Store.Passwords, Store.Valid;
      DropStep(w, sid);
      if sid in sessions {
        Become(sid, Over, w.sessions);
      }
    }
  }

  // ----- The actions one by one -----

  lemma ConnectStep(w: World, sid: nat)
    ensures Step(w, Event.Connect(sid)) ==
            if sid in w.sessions then w else w.(sessions := w.sessions[sid := Sess("", [], {}, Fresh)])
  {
  }

  lemma LoginStep(w: World, sid: nat, u: string, p: string)
    ensures Step(w, Event.Login(sid, u, p)) ==
            if sid in w.sessions && w.sessions[sid].phase != Over
               && u in w.boxes && u in w.passwords && w.passwords[u] == p
            then
              var s := w.sessions[sid];
              w.(sessions := w.sessions[sid := Sess(u, w.boxes[u], s.deleted, Open)])
            else w
  {
  }

  lemma AddMessageStep(w: World, u: string, m: Message)
    requires u in w.boxes && m !in w.owner
    ensures var w' := Step(w, Event.AddMessage(u, m));
            w'.boxes == w.boxes[u := w.boxes[u] + [m]] && w'.passwords == w.passwords && w'.sessions == w.sessions
  {
  }

  lemma QuitStep(w: World, sid: nat)
    ensures !IsOpen(w, sid) ==> Step(w, Event.Quit(sid)) == w
    ensures IsOpen(w, sid) ==>
            var s, w' := w.sessions[sid], Step(w, Event.Quit(sid));
            && w'.boxes == Expunged(w.boxes, s.user, Marked(s.msgs, s.deleted)) && w'.passwords == w.passwords
            && w'.sessions == w.sessions[sid := s.(phase := Over)]
  {
  }

  lemma DropStep(w: World, sid: nat)
    ensures Step(w, Event.Drop(sid)) ==
            if sid !in w.sessions then w
            else w.(sessions := w.sessions[sid := w.sessions[sid].(phase := Over)])
  {
  }
}
