/** The in-memory maildrop: a store of accounts and the sessions over it. */
module Maildrop {
  import opened Lines
  import opened Sessions
  import opened Top
  import opened DotStuffWriters

  /** A stored message. Its identity is the object itself: two messages may have the same
      unique-id and data and still be different messages. */
  class Message {
    const uid: string
    const data: string

    constructor (uid: string, data: string)
      ensures this.uid == uid && this.data == data
    {
      this.uid, this.data := uid, data;
    }
  }

  // ----- What a session sees: a snapshot and a set of marks -----

  /** The numbers 1..n that are not marked, in increasing order. */
  function Live(n: nat, deleted: set<nat>): (nums: seq<int>)
    ensures forall i :: 0 <= i < |nums| ==> 1 <= nums[i] <= n
  {
    if n == 0 then []
    else if n in deleted then Live(n - 1, deleted)
    else Live(n - 1, deleted) + [n]
  }

  lemma LiveNumbers(n: nat, deleted: set<nat>)
    ensures forall k :: k in Live(n, deleted) <==> 1 <= k <= n && k !in deleted
    ensures forall i, j :: 0 <= i < j < |Live(n, deleted)| ==> Live(n, deleted)[i] < Live(n, deleted)[j]
  {
  }

  function Infos(msgs: seq<Message>, nums: seq<int>): (items: seq<Info>)
    requires forall i :: 0 <= i < |nums| ==> 1 <= nums[i] <= |msgs|
    ensures |items| == |nums|
    ensures forall i :: 0 <= i < |nums| ==> items[i] == Info(nums[i], |msgs[nums[i] - 1].data|)
  {
    seq(|nums|, i requires 0 <= i < |nums| => Info(nums[i], |msgs[nums[i] - 1].data|))
  }

  function Uids(msgs: seq<Message>, nums: seq<int>): (items: seq<Uid>)
    requires forall i :: 0 <= i < |nums| ==> 1 <= nums[i] <= |msgs|
    ensures |items| == |nums|
    ensures forall i :: 0 <= i < |nums| ==> items[i] == Uid(nums[i], msgs[nums[i] - 1].uid)
  {
    seq(|nums|, i requires 0 <= i < |nums| => Uid(nums[i], msgs[nums[i] - 1].uid))
  }

  function SumSizes(items: seq<Info>): int {
    if items == [] then 0 else SumSizes(items[..|items| - 1]) + items[|items| - 1].size
  }

  const NO_SUCH := Protocol("", "no such message", false)
  const IS_DELETED := Protocol("", "message is deleted", false)
  const ALREADY_DELETED := Protocol("", "message already deleted", false)
  const AUTH_FAILED := Protocol("AUTH", "authentication failed", false)

  /** The message a number denotes, unless it is out of range or marked. */
  function MessageAt(msgs: seq<Message>, deleted: set<nat>, num: int): (r: Reply<Message>)
    ensures r.Ok? <==> 1 <= num <= |msgs| && num !in deleted
    ensures r.Ok? ==> r.value == msgs[num - 1]
  {
    if num < 1 || num > |msgs| then Err(NO_SUCH)
    else if num in deleted then Err(IS_DELETED)
    else Ok(msgs[num - 1])
  }

  function StatOf(msgs: seq<Message>, deleted: set<nat>): (int, int) {
    var items := Infos(msgs, Live(|msgs|, deleted));
    (|items|, SumSizes(items))
  }

  function ListOf(msgs: seq<Message>, deleted: set<nat>, num: int): Reply<seq<Info>> {
    if num > 0 then
      match MessageAt(msgs, deleted, num)
      case Err(e) => Err(e)
      case Ok(m) => Ok([Info(num, |m.data|)])
    else Ok(Infos(msgs, Live(|msgs|, deleted)))
  }

  function UidlOf(msgs: seq<Message>, deleted: set<nat>, num: int): Reply<seq<Uid>> {
    if num > 0 then
      match MessageAt(msgs, deleted, num)
      case Err(e) => Err(e)
      case Ok(m) => Ok([Uid(num, m.uid)])
    else Ok(Uids(msgs, Live(|msgs|, deleted)))
  }

  function RetrOf(msgs: seq<Message>, deleted: set<nat>, num: int): Reply<Body> {
    match MessageAt(msgs, deleted, num)
    case Err(e) => Err(e)
    case Ok(m) => Ok(Body([m.data], false, None))
  }

  function TopOf(msgs: seq<Message>, deleted: set<nat>, num: int, lines: int): Reply<Body> {
    match MessageAt(msgs, deleted, num)
    case Err(e) => Err(e)
    case Ok(m) => Ok(Body([TopBytes(m.data, lines)], false, None))
  }

  function DeleOf(msgs: seq<Message>, deleted: set<nat>, num: int): Reply<()> {
    if num < 1 || num > |msgs| then Err(NO_SUCH)
    else if num in deleted then Err(ALREADY_DELETED)
    else Ok(())
  }

  function MarksAfterDele(msgs: seq<Message>, deleted: set<nat>, num: int): set<nat> {
    if DeleOf(msgs, deleted, num).Ok? then deleted + {num} else deleted
  }

  /** The messages the marks denote. */
  ghost function Marked(msgs: seq<Message>, deleted: set<nat>): set<Message> {
    set k | k in deleted && 1 <= k <= |msgs| :: msgs[k - 1]
  }

  /** The listings agree with each other: STAT is the length and the sum of LIST, LIST and UIDL
      carry the same strictly increasing numbers, and asking for one message succeeds exactly
      for the numbers listed, with the listed entry. */
  lemma Agreement(msgs: seq<Message>, deleted: set<nat>, num: int)
    requires num > 0
    ensures var all := ListOf(msgs, deleted, 0).value;
            var uids := UidlOf(msgs, deleted, 0).value;
            && StatOf(msgs, deleted) == (|all|, SumSizes(all))
            && |uids| == |all|
            && (forall i :: 0 <= i < |all| ==> uids[i].num == all[i].num && 1 <= all[i].num <= |msgs|)
            && (forall i, j :: 0 <= i < j < |all| ==> all[i].num < all[j].num)
            && (ListOf(msgs, deleted, num).Ok? <==> exists i :: 0 <= i < |all| && all[i].num == num)
            && (UidlOf(msgs, deleted, num).Ok? <==> exists i :: 0 <= i < |all| && all[i].num == num)
            && (forall i :: 0 <= i < |all| && all[i].num == num ==>
                  ListOf(msgs, deleted, num) == Ok([all[i]]) && UidlOf(msgs, deleted, num) == Ok([uids[i]]))
  {
    hide SumSizes, Live;
    LiveNumbers(|msgs|, deleted);
    var nums := Live(|msgs|, deleted);
    var all := ListOf(msgs, deleted, 0).value;
    if num in nums {
      var i :| 0 <= i < |nums| && nums[i] == num;
      assert all[i].num == num;
    }
  }

  // ----- The store -----

  /** The messages left when some are removed, in their order. */
  function Without(ms: seq<Message>, remove: set<Message>): (kept: seq<Message>)
    ensures |kept| <= |ms|
  {
    if ms == [] then []
    else if ms[|ms| - 1] in remove then Without(ms[..|ms| - 1], remove)
    else Without(ms[..|ms| - 1], remove) + [ms[|ms| - 1]]
  }

  lemma WithoutMembers(ms: seq<Message>, remove: set<Message>)
    ensures forall m :: m in Without(ms, remove) <==> m in ms && m !in remove
  {
  }

  class Account {
    const password: string
    var messages: seq<Message>

    constructor (password: string)
      ensures this.password == password && messages == []
    {
      this.password := password;
      messages := [];
    }
  }

  class Store {
    var users: map<string, Account>

    constructor ()
      ensures Valid() && Contents() == map[]
    {
      users := map[];
    }

    /** No two users share an account. */
    ghost predicate Valid()
      reads this
    {
      forall u, v :: u in users && v in users && u != v ==> users[u] != users[v]
    }

    ghost function Contents(): map<string, seq<Message>>
      reads this, users.Values
    {
      map u | u in users :: users[u].messages
    }

    ghost function Passwords(): map<string, string>
      reads this
    {
      map u | u in users :: users[u].password
    }

    /** Creates a user or replaces one: a replaced user's messages are gone. */
    method AddUser(username: string, password: string)
      requires Valid()
      modifies this
      ensures Valid()
      ensures Contents() == old(Contents())[username := []]
      ensures Passwords() == old(Passwords())[username := password]
    {
      var acc := new Account(password);
      users := users[username := acc];
    }

    /** Appends a new message; an unknown user is an error and changes nothing. */
    method AddMessage(username: string, uid: string, data: string) returns (ok: bool, ghost added: seq<Message>)
      requires Valid()
      modifies users.Values
      ensures Valid() && Passwords() == old(Passwords())
      ensures ok <==> username in old(Contents())
      ensures ok ==> |added| == 1 && fresh(added[0]) && added[0].uid == uid && added[0].data == data
      ensures ok ==> Contents() == old(Contents())[username := old(Contents())[username] + added]
      ensures !ok ==> Contents() == old(Contents())
    {
      added := [];
      if username !in users {
        return false, [];
      }
      var acc := users[username];
      var m := new Message(uid, data);
      acc.messages := acc.messages + [m];
      ok, added := true, [m];
    }

    /** Credentials are checked against the stored password; success takes a snapshot. */
    method Authenticate(username: string, password: string) returns (snapshot: seq<Message>, ok: bool)
      requires Valid()
      ensures ok <==> username in Passwords() && Passwords()[username] == password
      ensures ok ==> snapshot == Contents()[username]
    {
      if username !in users || users[username].password != password {
        return [], false;
      }
      snapshot, ok := users[username].messages, true;
    }

    /** Removes messages by identity, keeping the order of the others, and counts them. */
    method Expunge(username: string, remove: set<Message>) returns (removed: nat)
      requires Valid()
      modifies users.Values
      ensures Valid() && Passwords() == old(Passwords())
      ensures Contents() == old(Expunged(Contents(), username, remove))
      ensures removed == old(CountRemoved(Contents(), username, remove))
    {
      if |remove| == 0 {
        if username in users {
          WithoutNothing(users[username].messages, remove);
        }
        return 0;
      }
      if username !in users {
        return 0;
      }
      var acc := users[username];
      var kept, n := Filter(acc.messages, remove);
      acc.messages, removed := kept, n;
      assert Contents() == old(Contents())[username := kept];
    }
  }

  function Expunged(contents: map<string, seq<Message>>, username: string, remove: set<Message>)
    : map<string, seq<Message>>
  {
    if username in contents then contents[username := Without(contents[username], remove)] else contents
  }

  function CountRemoved(contents: map<string, seq<Message>>, username: string, remove: set<Message>): nat {
    if username in contents then |contents[username]| - |Without(contents[username], remove)| else 0
  }

  /** The loop of the expunge: keeps the messages not to be removed and counts the others. */
  method Filter(all: seq<Message>, remove: set<Message>) returns (kept: seq<Message>, removed: nat)
    ensures kept == Without(all, remove) && removed == |all| - |kept|
  {
    kept, removed := [], 0;
    var i := 0;
    while i < |all|
      invariant i <= |all|
      invariant kept == Without(all[..i], remove)
      invariant removed == i - |kept|
    {
      assert all[..i + 1][..i] == all[..i];
      if all[i] in remove {
        removed := removed + 1;
      } else {
        kept := kept + [all[i]];
      }
      i := i + 1;
    }
    assert all[..i] == all;
  }

  lemma WithoutNothing(ms: seq<Message>, remove: set<Message>)
    requires forall m :: m in ms ==> m !in remove
    ensures Without(ms, remove) == ms
  {
    if ms != [] {
      assert ms[|ms| - 1] in ms;
      WithoutNothing(ms[..|ms| - 1], remove);
    }
  }

  // ----- A session over the store -----

  class MailSession {
    const store: Store
    var username: string
    var msgs: seq<Message>
    var deleted: set<nat>

    constructor (store: Store)
      ensures this.store == store && username == "" && msgs == [] && deleted == {}
    {
      this.store := store;
      username, msgs, deleted := "", [], {};
    }

    method Login(username: string, password: string) returns (r: Reply<()>)
      requires store.Valid()
      modifies this
      ensures deleted == old(deleted)
      ensures r.Ok? <==> username in store.Passwords() && store.Passwords()[username] == password
      ensures r.Ok? ==> this.username == username && msgs == store.Contents()[username]
      ensures r.Err? ==> r == Err(AUTH_FAILED) && this.username == old(this.username) && msgs == old(msgs)
    {
      var snapshot, ok := store.Authenticate(username, password);
      if !ok {
        return Err(AUTH_FAILED);
      }
      this.username, msgs := username, snapshot;
      r := Ok(());
    }

    method Stat() returns (count: int, size: int)
      ensures (count, size) == StatOf(msgs, deleted)
    {
      hide Infos;
      assert Infos(msgs, Live(0, deleted)) == [];
      count, size := 0, 0;
      var i := 0;
      while i < |msgs|
        invariant i <= |msgs|
        invariant count == |Live(i, deleted)| && size == SumSizes(Infos(msgs, Live(i, deleted)))
      {
        InfosSnoc(msgs, i, deleted);
        if i + 1 !in deleted {
          count := count + 1;
          size := size + |msgs[i].data|;
        }
        i := i + 1;
      }
    }

    method List(num: nat) returns (r: Reply<seq<Info>>)
      ensures r == ListOf(msgs, deleted, num)
    {
      if num > 0 {
        match MessageAt(msgs, deleted, num)
        case Err(e) => return Err(e);
        case Ok(m) => return Ok([Info(num, |m.data|)]);
      }
      var items: seq<Info> := [];
      var i := 0;
      while i < |msgs|
        invariant i <= |msgs|
        invariant items == Infos(msgs, Live(i, deleted))
      {
        InfosSnoc(msgs, i, deleted);
        if i + 1 !in deleted {
          items := items + [Info(i + 1, |msgs[i].data|)];
        }
        i := i + 1;
      }
      r := Ok(items);
    }

    method Uidl(num: nat) returns (r: Reply<seq<Uid>>)
      ensures r == UidlOf(msgs, deleted, num)
    {
      if num > 0 {
        match MessageAt(msgs, deleted, num)
        case Err(e) => return Err(e);
        case Ok(m) => return Ok([Uid(num, m.uid)]);
      }
      var items: seq<Uid> := [];
      var i := 0;
      while i < |msgs|
        invariant i <= |msgs|
        invariant items == Uids(msgs, Live(i, deleted))
      {
        if i + 1 !in deleted {
          items := items + [Uid(i + 1, msgs[i].uid)];
        }
        i := i + 1;
      }
      r := Ok(items);
    }

    /** The bytes of exactly the message that number denotes; the error tells a number that was
        never one from one that is marked. */
    method Retr(num: nat) returns (r: Reply<Body>)
      ensures r.Ok? <==> 1 <= num <= |msgs| && num !in deleted
      ensures r.Ok? ==> Concat(r.value.chunks) == msgs[num - 1].data && !r.value.failed && r.value.octets == None
      ensures r.Err? ==> r.error == if 1 <= num <= |msgs| then IS_DELETED else NO_SUCH
      ensures r == RetrOf(msgs, deleted, num)
    {
      match MessageAt(msgs, deleted, num)
      case Err(e) => r := Err(e);
      case Ok(m) =>
        OneChunk(m.data);
        r := Ok(Body([m.data], false, None));
    }

    /** The first lines of exactly that message, none of them cut. */
    method Top(num: nat, lines: nat) returns (r: Reply<Body>)
      ensures r.Ok? <==> 1 <= num <= |msgs| && num !in deleted
      ensures r.Ok? ==>
                var data := msgs[num - 1].data;
                LinesOf(Concat(r.value.chunks)) == LinesOf(data)[..KeptLines(data, lines)] && !r.value.failed
      ensures r == TopOf(msgs, deleted, num, lines)
    {
      hide LinesOf, KeptLines, TopBytes, Concat;
      match MessageAt(msgs, deleted, num)
      case Err(e) => r := Err(e);
      case Ok(m) =>
        var out := ComputeTop(m.data, lines);
        OneChunk(out);
        TopLines(m.data, lines);
        r := Ok(Body([out], false, None));
    }

    method Dele(num: nat) returns (r: Reply<()>)
      modifies this`deleted
      ensures r == DeleOf(msgs, old(deleted), num)
      ensures deleted == MarksAfterDele(msgs, old(deleted), num)
    {
      if num < 1 || num > |msgs| {
        return Err(NO_SUCH);
      }
      if num in deleted {
        return Err(ALREADY_DELETED);
      }
      deleted := deleted + {num};
      r := Ok(());
    }

    method Rset()
      modifies this`deleted
      ensures deleted == {}
    {
      deleted := {};
    }

    /** Collects the marked messages. */
    method ToRemove() returns (remove: set<Message>)
      ensures remove == Marked(msgs, deleted)
    {
      remove := {};
      var pending := deleted;
      while pending != {}
        invariant pending <= deleted
        invariant remove == Marked(msgs, deleted - pending)
        decreases pending
      {
        var num :| num in pending;
        if num >= 1 && num <= |msgs| {
          remove := remove + {msgs[num - 1]};
        }
        MarkedStep(msgs, deleted - pending, num);
        assert deleted - (pending - {num}) == (deleted - pending) + {num};
        pending := pending - {num};
      }
      assert deleted - pending == deleted;
    }

    /** Commits the marks: of the account's messages exactly the marked ones are removed. */
    method Quit() returns (expunged: nat)
      requires store.Valid()
      modifies store.users.Values
      ensures store.Valid() && store.Passwords() == old(store.Passwords())
      ensures store.Contents() == old(Expunged(store.Contents(), username, Marked(msgs, deleted)))
      ensures expunged == old(CountRemoved(store.Contents(), username, Marked(msgs, deleted)))
    {
      if |deleted| == 0 {
        if username in store.users {
          WithoutNothing(store.users[username].messages, Marked(msgs, deleted));
        }
        return 0;
      }
      var remove := ToRemove();
      expunged := store.Expunge(username, remove);
    }
  }

  lemma MarkedStep(msgs: seq<Message>, deleted: set<nat>, num: nat)
    ensures Marked(msgs, deleted + {num}) ==
            Marked(msgs, deleted) + if 1 <= num <= |msgs| then {msgs[num - 1]} else {}
  {
  }

  lemma InfosSnoc(msgs: seq<Message>, i: nat, deleted: set<nat>)
    requires i < |msgs|
    ensures Infos(msgs, Live(i + 1, deleted)) ==
            Infos(msgs, Live(i, deleted)) + if i + 1 in deleted then [] else [Info(i + 1, |msgs[i].data|)]
    ensures SumSizes(Infos(msgs, Live(i + 1, deleted))) ==
            SumSizes(Infos(msgs, Live(i, deleted))) + if i + 1 in deleted then 0 else |msgs[i].data|
  {
    var before, after := Infos(msgs, Live(i, deleted)), Infos(msgs, Live(i + 1, deleted));
    if i + 1 !in deleted {
      assert after == before + [Info(i + 1, |msgs[i].data|)];
      assert after[..|after| - 1] == before;
    } else {
      assert after == before;
    }
  }
}
