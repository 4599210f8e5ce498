/** When the sleeping is bounded: exactly for which configurations a client cannot make the server
    sleep without limit. */
module Backoff {
  import opened Lines
  import opened Text
  import opened Sessions
  import opened Protocol
  import opened Budget
  import opened Discipline
  import Delivery

  /** The sleep for one error when it is the `k`th. */
  function Nap(cfg: Config, k: nat): int {
    Sum(Delay(cfg, k))
  }

  lemma Naps(cfg: Config, k: nat)
    ensures cfg.errorDelay <= 0 ==> Delay(cfg, k) == []
    ensures Nap(cfg, k) >= 0
    ensures cfg.errorDelay > 0 && k > 0 ==> Nap(cfg, k) >= 1
    ensures Nap(cfg, 0) == 0
  {
    if cfg.errorDelay > 0 {
      SumSnoc([], Delay(cfg, k)[0]);
      SumSnoc([], Delay(cfg, 0)[0]);
      assert Delay(cfg, k) == [] + [Delay(cfg, k)[0]] && Delay(cfg, 0) == [] + [Delay(cfg, 0)[0]];
      if k > 0 {
        assert k * cfg.errorDelay >= 1;
      }
    }
  }

  lemma AtMostOne(cfg: Config, k: nat)
    ensures |Delay(cfg, k)| <= 1
  {
  }

  lemma SumMore(a: seq<int>, cfg: Config, k: nat)
    ensures Sum(a + Delay(cfg, k)) == Sum(a) + Nap(cfg, k)
  {
    hide Delay;
    AtMostOne(cfg, k);
    if Delay(cfg, k) == [] {
      assert a + [] == a;
    } else {
      var d := Delay(cfg, k)[0];
      assert Delay(cfg, k) == [d] && [] + [d] == [d];
      SumSnoc(a, d);
      SumSnoc([], d);
    }
  }

  // ----- Where it is bounded -----

  /** Whether a client can get as far as a login call. */
  predicate LoginReachable(cfg: Config, isTLS: bool) {
    cfg.insecureAuth || isTLS || cfg.tlsAvailable
  }

  predicate Restful(cfg: Config, isTLS: bool) {
    cfg.errorDelay <= 0
    || (cfg.maxErrors > 0 && (!cfg.exemptAuthFailures || cfg.maxErrors == 1 || !LoginReachable(cfg, isTLS)))
  }

  /** The sleeps are those of the errors counted, or, with a limit of one, at most one of them. */
  predicate Rested(cfg: Config, isTLS: bool, r: Run) {
    && (cfg.errorDelay <= 0 ==> r.slept == [])
    && (!LoginReachable(cfg, isTLS) ==> !r.st.isTLS)
    && (cfg.maxErrors > 0 ==>
          && r.st.errorCount <= cfg.maxErrors && (r.live ==> r.st.errorCount < cfg.maxErrors)
          && (!cfg.exemptAuthFailures || !LoginReachable(cfg, isTLS) ==> r.slept == Delays(cfg, r.st.errorCount))
          && (cfg.maxErrors == 1 ==> Sum(r.slept) <= if r.st.errorCount == 0 then 0 else Nap(cfg, 1)))
  }

  lemma AdvanceRested(cfg: Config, isTLS: bool, r: Run, line: string, env: Env, e: Effect)
    requires Rested(cfg, isTLS, r) && r.live && Sound(cfg, r.st, ParseCommand(line), env, e)
    ensures Rested(cfg, isTLS, Advance(cfg, r, line, env, e))
  {
    hide Delay, RenderEffect, Render, ParseCommand, Nap, Sum;
    Naps(cfg, 0);
    Naps(cfg, 1);
    Naps(cfg, r.st.errorCount);
    Naps(cfg, r.st.errorCount + 1);
    SumMore(r.slept, cfg, r.st.errorCount);
    SumMore(r.slept, cfg, r.st.errorCount + 1);
    assert r.slept + [] == r.slept;
  }

  lemma {:induction false} ExecRested(cfg: Config, isTLS: bool, r: Run, events: seq<Event>)
    requires Rested(cfg, isTLS, r)
    ensures Rested(cfg, isTLS, Exec(cfg, r, events))
    decreases |events|
  {
    hide Rested, Advance, Dispatch, ParseCommand, TrimSpace;
    if events != [] {
      StepRested(cfg, isTLS, r, events[0]);
      ExecRested(cfg, isTLS, Step(cfg, r, events[0]), events[1..]);
    }
  }

  lemma StepRested(cfg: Config, isTLS: bool, r: Run, event: Event)
    requires Rested(cfg, isTLS, r)
    ensures Rested(cfg, isTLS, Step(cfg, r, event))
  {
    hide Advance, Dispatch, ParseCommand, TrimSpace, Nap, Sum, Delays;
    if r.live && event.input.Received? && TrimSpace(event.input.line) != "" {
      var line := TrimSpace(event.input.line);
      var e := Dispatch(cfg, r.st, ParseCommand(line), event.env);
      DispatchSound(cfg, r.st, ParseCommand(line), event.env);
      AdvanceRested(cfg, isTLS, r, line, event.env, e);
    }
  }

  lemma {:induction false} DelaysGrow(cfg: Config, m: nat, n: nat)
    requires m <= n
    ensures Sum(Delays(cfg, m)) <= Sum(Delays(cfg, n))
  {
    hide Delay, Sum, Nap;
    if m < n {
      DelaysGrow(cfg, m, n - 1);
      SumMore(Delays(cfg, n - 1), cfg, n);
      Naps(cfg, n);
    }
  }

  ghost predicate BoundedBy(cfg: Config, isTLS: bool, bound: int) {
    forall flushed: bool, events: seq<Event> :: Sum(Exec(cfg, Start(cfg, isTLS, flushed), events).slept) <= bound
  }

  function BoundOf(cfg: Config): int {
    if cfg.maxErrors > 0 then Sum(Delays(cfg, cfg.maxErrors)) else 0
  }

  lemma RestfulBounded(cfg: Config, isTLS: bool)
    requires Restful(cfg, isTLS)
    ensures BoundedBy(cfg, isTLS, BoundOf(cfg))
  {
    hide Exec, Sum, Delay, Delays, Nap, Start;
    forall flushed: bool, events: seq<Event>
      ensures Sum(Exec(cfg, Start(cfg, isTLS, flushed), events).slept) <= BoundOf(cfg)
    {
      var s := Start(cfg, isTLS, flushed);
      var r := Exec(cfg, s, events);
      StartRested(cfg, isTLS, flushed);
      ExecRested(cfg, isTLS, s, events);
      FirstNap(cfg);
      if cfg.maxErrors > 0 {
        DelaysGrow(cfg, r.st.errorCount, cfg.maxErrors);
        DelaysGrow(cfg, 0, cfg.maxErrors);
        DelaysGrow(cfg, 1, cfg.maxErrors);
      }
    }
  }

  lemma FirstNap(cfg: Config)
    ensures Sum([]) == 0 && Sum(Delays(cfg, 0)) == 0 && Sum(Delays(cfg, 1)) == Nap(cfg, 1)
  {
    SumMore([], cfg, 1);
  }

  lemma StartRested(cfg: Config, isTLS: bool, flushed: bool)
    ensures Rested(cfg, isTLS, Start(cfg, isTLS, flushed))
  {
    hide Delay, Render;
  }

  // ----- Where it is not -----

  const NO := Plain("no")

  /** A session that refuses every login, on a connection that works. */
  const REFUSING := Session(
    login := (u, p) => Rejected(NO),
    mechanisms := None,
    plain := (i, u, p) => Rejected(NO),
    stat := Err(NO),
    list := n => Err(NO),
    uidl := n => Err(NO),
    retr := n => Err(NO),
    top := (n, k) => Err(NO),
    dele := n => Err(NO),
    rset := Err(NO),
    noop := Err(NO),
    quit := Err(NO),
    lang := None,
    utf8 := None
  )

  const WORKING := Env(REFUSING, None, false, true, true)

  function Line(line: string): Event {
    Event(Received(line), WORKING)
  }

  /** The loop waits for a command before authentication, with room for another error. */
  predicate Waits(cfg: Config, r: Run) {
    r.live && !r.st.authenticated && !r.st.hijacked && !r.st.closePending
    && (cfg.maxErrors > 0 ==> r.st.errorCount + 1 < cfg.maxErrors)
  }

  lemma NonsenseParsed()
    ensures TrimSpace("XX") == "XX" && ParseCommand("XX").verb == Other("XX")
  {
    TrimmedAlready("XX");
    SplitCommandOf("XX", "");
    UpperAlready("XX");
    assert ParseVerb("XX") == Other("XX") by {
      assert "XX"[0] == 'X';
    }
  }

  /** A command that does not exist is one error more, and slept for. */
  lemma Nonsense(cfg: Config, r: Run)
    requires Waits(cfg, r)
    ensures var r' := Step(cfg, r, Line("XX"));
            && r'.st == r.st.(errorCount := r.st.errorCount + 1) && r'.live
            && Sum(r'.slept) == Sum(r.slept) + Nap(cfg, r.st.errorCount + 1)
  {
    hide ParseCommand, TrimSpace, Render, RenderEffect, Delay, Sum, Nap;
    NonsenseParsed();
    SumMore(r.slept, cfg, r.st.errorCount + 1);
  }

  lemma {:induction false} EndlessNonsense(cfg: Config, r: Run, n: nat)
    requires Waits(cfg, r) && cfg.maxErrors <= 0 && cfg.errorDelay > 0
    ensures Sum(Exec(cfg, r, seq(n, _ => Line("XX"))).slept) >= Sum(r.slept) + n
    decreases n
  {
    hide Step, Sum, Nap;
    if n > 0 {
      var events := seq(n, _ => Line("XX"));
      assert events[0] == Line("XX") && events[1..] == seq(n - 1, _ => Line("XX"));
      Nonsense(cfg, r);
      Naps(cfg, r.st.errorCount + 1);
      EndlessNonsense(cfg, Step(cfg, r, Line("XX")), n - 1);
    }
  }

  /** Where failed logins are exempt a refused PASS leaves the connection as it was, after the
      sleep for the errors counted before. */
  lemma ExemptRefusal(cfg: Config, r: Run)
    requires cfg.exemptAuthFailures && Delivery.Waiting(cfg, r) && r.st.username != ""
    ensures var r' := Step(cfg, r, Line(Delivery.PassLine("p")));
            r'.st == r.st && Delivery.Waiting(cfg, r')
            && Sum(r'.slept) == Sum(r.slept) + Nap(cfg, r.st.errorCount)
  {
    hide ParseCommand, MessageOf, Render, RenderEffect, Delay, Sum, Nap, TrimSpace;
    Delivery.PassLineParsed("p");
    SumMore(r.slept, cfg, r.st.errorCount);
  }

  /** So it can be refused any number of times. */
  lemma {:induction false} ExemptUnbounded(cfg: Config, r: Run, n: nat)
    requires cfg.exemptAuthFailures && Delivery.Waiting(cfg, r) && r.st.username != ""
    requires cfg.errorDelay > 0 && r.st.errorCount >= 1
    ensures Sum(Exec(cfg, r, seq(n, _ => Line(Delivery.PassLine("p")))).slept) >= Sum(r.slept) + n
    decreases n
  {
    hide Step, Sum, Nap, Delivery.PassLine;
    if n > 0 {
      var pass := Line(Delivery.PassLine("p"));
      var events := seq(n, _ => pass);
      assert events[0] == pass && events[1..] == seq(n - 1, _ => pass);
      ExemptRefusal(cfg, r);
      Naps(cfg, r.st.errorCount);
      ExemptUnbounded(cfg, Step(cfg, r, pass), n - 1);
    }
  }

  lemma StlsParsed()
    ensures TrimSpace("STLS") == "STLS" && ParseCommand("STLS").verb == STLS
  {
    TrimmedAlready("STLS");
    SplitCommandOf("STLS", "");
    UpperAlready("STLS");
  }

  /** From the start a client gets, by STLS if need be, a nonsensical command and USER, to where
      it can log in with one error counted. */
  lemma ReachesLogin(cfg: Config, isTLS: bool)
    returns (events: seq<Event>)
    requires cfg.maxErrors >= 2 && LoginReachable(cfg, isTLS)
    ensures var r := Exec(cfg, Start(cfg, isTLS, true), events);
            Delivery.Waiting(cfg, r) && r.st.username == "u" && r.st.errorCount == 1 && Sum(r.slept) >= 0
  {
    hide Step, Sum, Nap, ParseCommand, TrimSpace, Delivery.UserLine;
    var s := Start(cfg, isTLS, true);
    var upgrade := if AuthAllowed(cfg, s.st) then [] else [Line("STLS")];
    var r0 := Exec(cfg, s, upgrade);
    Upgrading(cfg, isTLS);
    var r1 := Step(cfg, r0, Line("XX"));
    Nonsense(cfg, r0);
    Naps(cfg, 1);
    NoSleepYet();
    var r2 := Step(cfg, r1, Line(Delivery.UserLine("u")));
    UserU();
    Delivery.UserAccepted(cfg, r1, "u", WORKING);
    SameSleep(cfg, r1);
    var more := [Line("XX"), Line(Delivery.UserLine("u"))];
    events := upgrade + more;
    ExecConcat(cfg, s, upgrade, more);
    ExecTwo(cfg, r0, more[0], more[1]);
  }

  lemma ExecTwo(cfg: Config, r: Run, a: Event, b: Event)
    ensures Exec(cfg, r, [a, b]) == Step(cfg, Step(cfg, r, a), b)
  {
    hide Step;
    assert [a, b][1..] == [b] && [b][1..] == [];
    assert Exec(cfg, Step(cfg, r, a), [b]) == Exec(cfg, Step(cfg, Step(cfg, r, a), b), []);
  }

  lemma UserU()
    ensures IsToken("u") && !ContainsCTL("u")
  {
  }

  lemma NoSleepYet()
    ensures Sum([]) == 0
  {
  }

  lemma Upgrading(cfg: Config, isTLS: bool)
    requires cfg.maxErrors >= 2 && LoginReachable(cfg, isTLS)
    ensures var s := Start(cfg, isTLS, true);
            var r := Exec(cfg, s, if AuthAllowed(cfg, s.st) then [] else [Line("STLS")]);
            Waits(cfg, r) && AuthAllowed(cfg, r.st) && r.st.errorCount == 0 && r.slept == []
  {
    hide ParseCommand, TrimSpace, Render, RenderEffect;
    StlsParsed();
    var s := Start(cfg, isTLS, true);
    assert Exec(cfg, s, []) == s;
    assert [Line("STLS")][1..] == [];
    assert Exec(cfg, s, [Line("STLS")]) == Exec(cfg, Step(cfg, s, Line("STLS")), []);
  }

  lemma SameSleep(cfg: Config, r: Run)
    requires Delivery.Waiting(cfg, r)
    ensures Step(cfg, r, Line(Delivery.UserLine("u"))).slept == r.slept
  {
    hide ParseCommand, Render, RenderEffect, TrimSpace;
    UserU();
    Delivery.UserLineParsed("u");
    assert r.slept + [] == r.slept;
  }

  lemma RestlessUnbounded(cfg: Config, isTLS: bool, bound: int)
    requires !Restful(cfg, isTLS)
    ensures !BoundedBy(cfg, isTLS, bound)
  {
    hide Exec, Sum, Nap, Start, BoundOf;
    var s := Start(cfg, isTLS, true);
    var n: nat := if bound >= 0 then bound + 1 else 0;
    if cfg.maxErrors <= 0 {
      WaitsAtStart(cfg, isTLS);
      EndlessNonsense(cfg, s, n);
      assert Sum(Exec(cfg, s, seq(n, _ => Line("XX"))).slept) > bound;
    } else {
      var reach := ReachesLogin(cfg, isTLS);
      var passes := seq(n, _ => Line(Delivery.PassLine("p")));
      ExemptUnbounded(cfg, Exec(cfg, s, reach), n);
      ExecConcat(cfg, s, reach, passes);
      assert Sum(Exec(cfg, s, reach + passes).slept) > bound;
    }
  }

  lemma WaitsAtStart(cfg: Config, isTLS: bool)
    requires cfg.maxErrors <= 0
    ensures Waits(cfg, Start(cfg, isTLS, true)) && Sum(Start(cfg, isTLS, true).slept) == 0
  {
    hide Render;
  }

  /** The total sleep that clients can cause is bounded over all runs if and only if no delay is
      configured, or errors are limited and, unless failed logins count, the limit is one or no
      login can be reached. */
  lemma BoundedExactly(cfg: Config, isTLS: bool)
    ensures (exists bound :: BoundedBy(cfg, isTLS, bound)) <==> Restful(cfg, isTLS)
  {
    hide BoundedBy, Restful;
    if Restful(cfg, isTLS) {
      RestfulBounded(cfg, isTLS);
    } else {
      forall bound
        ensures !BoundedBy(cfg, isTLS, bound)
      {
        RestlessUnbounded(cfg, isTLS, bound);
      }
    }
  }
}
