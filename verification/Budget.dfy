/** The error limit and the back-off over whole runs. */
module Budget {
  import opened Text
  import opened Protocol
  import Discipline

  function Sum(delays: seq<int>): int {
    if delays == [] then 0 else Sum(delays[..|delays| - 1]) + delays[|delays| - 1]
  }

  /** The sleeps for the first `n` errors. */
  function Delays(cfg: Config, n: nat): seq<int> {
    if n == 0 then [] else Delays(cfg, n - 1) + Delay(cfg, n)
  }

  function Capped(cfg: Config, k: nat): int {
    if k * cfg.errorDelay > cfg.maxErrorDelay then cfg.maxErrorDelay else k * cfg.errorDelay
  }

  /** The sum over k = 1..n of min(k * errorDelay, maxErrorDelay). */
  function BackOff(cfg: Config, n: nat): int {
    if n == 0 then 0 else BackOff(cfg, n - 1) + Capped(cfg, n)
  }

  /** The invariant of the command loop: a connection that waits is below the limit, none goes
      beyond it, and unless failed logins are exempt the sleeps are those of the errors counted. */
  predicate WithinBudget(cfg: Config, r: Run) {
    && (cfg.maxErrors > 0 ==> r.st.errorCount <= cfg.maxErrors)
    && (cfg.maxErrors > 0 && r.live ==> r.st.errorCount < cfg.maxErrors)
    && (!cfg.exemptAuthFailures ==> r.slept == Delays(cfg, r.st.errorCount))
  }

  lemma AdvanceBudget(cfg: Config, r: Run, line: string, env: Env, e: Effect)
    requires WithinBudget(cfg, r) && r.live && Discipline.Counted(cfg, r.st, e)
    ensures WithinBudget(cfg, Advance(cfg, r, line, env, e))
    ensures r.st.errorCount <= e.next.errorCount <= r.st.errorCount + 1
  {
    hide Delay, RenderEffect, Render;
    assert r.slept + [] == r.slept;
  }

  lemma StepBudget(cfg: Config, r: Run, event: Event)
    requires WithinBudget(cfg, r)
    ensures WithinBudget(cfg, Step(cfg, r, event))
    ensures r.st.errorCount <= Step(cfg, r, event).st.errorCount <= r.st.errorCount + 1
  {
    if r.live && event.input.Received? && TrimSpace(event.input.line) != "" {
      var line := TrimSpace(event.input.line);
      var c := ParseCommand(line);
      Discipline.DispatchSound(cfg, r.st, c, event.env);
      AdvanceBudget(cfg, r, line, event.env, Dispatch(cfg, r.st, c, event.env));
    }
  }

  lemma {:induction false} ExecBudget(cfg: Config, r: Run, events: seq<Event>)
    requires WithinBudget(cfg, r)
    ensures WithinBudget(cfg, Exec(cfg, r, events))
    decreases |events|
  {
    if events != [] {
      StepBudget(cfg, r, events[0]);
      ExecBudget(cfg, Step(cfg, r, events[0]), events[1..]);
    }
  }

  lemma SumSnoc(a: seq<int>, d: int)
    ensures Sum(a + [d]) == Sum(a) + d
  {
    assert (a + [d])[..|a|] == a;
  }

  lemma {:induction false} SumOfDelays(cfg: Config, n: nat)
    requires cfg.errorDelay > 0 && cfg.maxErrorDelay > 0
    ensures Sum(Delays(cfg, n)) == BackOff(cfg, n)
  {
    hide Delay, Capped;
    if n > 0 {
      SumOfDelays(cfg, n - 1);
      OneDelay(cfg, n);
      SumSnoc(Delays(cfg, n - 1), Capped(cfg, n));
    }
  }

  lemma OneDelay(cfg: Config, n: nat)
    requires cfg.errorDelay > 0 && cfg.maxErrorDelay > 0
    ensures Delay(cfg, n) == [Capped(cfg, n)]
  {
  }

  lemma {:induction false} BackOffGrows(cfg: Config, m: nat, n: nat)
    requires cfg.errorDelay > 0 && cfg.maxErrorDelay > 0
    requires m <= n
    ensures BackOff(cfg, m) <= BackOff(cfg, n)
  {
    if m < n {
      BackOffGrows(cfg, m, n - 1);
    }
  }

  /** Over every run: a waiting connection has fewer errors than the limit, no run exceeds it,
      and when failed logins count the total sleep requested is the back-off of the errors
      counted, at most that of `maxErrors` errors. */
  lemma ErrorBudget(cfg: Config, isTLS: bool, flushed: bool, events: seq<Event>)
    requires cfg.maxErrors > 0
    ensures var r := Exec(cfg, Start(cfg, isTLS, flushed), events);
            && r.st.errorCount <= cfg.maxErrors
            && (r.live ==> r.st.errorCount < cfg.maxErrors)
            && (!cfg.exemptAuthFailures && cfg.errorDelay > 0 && cfg.maxErrorDelay > 0 ==>
                  Sum(r.slept) == BackOff(cfg, r.st.errorCount) <= BackOff(cfg, cfg.maxErrors))
            && (!cfg.exemptAuthFailures && cfg.errorDelay <= 0 ==> r.slept == [])
  {
    var r := Exec(cfg, Start(cfg, isTLS, flushed), events);
    ExecBudget(cfg, Start(cfg, isTLS, flushed), events);
    if !cfg.exemptAuthFailures {
      if cfg.errorDelay > 0 && cfg.maxErrorDelay > 0 {
        SumOfDelays(cfg, r.st.errorCount);
        BackOffGrows(cfg, r.st.errorCount, cfg.maxErrors);
      }
      if cfg.errorDelay <= 0 {
        NoDelays(cfg, r.st.errorCount);
      }
    }
  }

  lemma {:induction false} NoDelays(cfg: Config, n: nat)
    requires cfg.errorDelay <= 0
    ensures Delays(cfg, n) == []
  {
    if n > 0 {
      NoDelays(cfg, n - 1);
    }
  }
}
