/** Credentials stay within one security layer, over whole runs. */
module CredentialSafety {
  import opened Text
  import opened Protocol
  import opened Discipline

  /** The entry is an accepted USER command giving this username on this side of STLS. */
  predicate SuppliedAt(cfg: Config, e: Entry, username: string, secure: bool) {
    Supplies(cfg, e.before, ParseCommand(e.line), username) && e.before.isTLS == secure
    && e.effect.response == Status(true, Done)
  }

  ghost predicate SuppliedBefore(cfg: Config, entries: seq<Entry>, k: nat, username: string, secure: bool)
    requires k <= |entries|
  {
    exists j :: 0 <= j < k && SuppliedAt(cfg, entries[j], username, secure)
  }

  /** What is promised of the login calls of one answered command. */
  ghost predicate LoginSafe(cfg: Config, entries: seq<Entry>, k: nat)
    requires k < |entries|
  {
    forall i :: 0 <= i < |entries[k].effect.calls| ==>
      var x := entries[k].effect.calls[i];
      && (IsAuthentication(x) ==> (x.secure || cfg.insecureAuth) && x.secure == entries[k].before.isTLS)
      && (x.CallLogin? ==>
            IsToken(x.username) && !ContainsCTL(x.username)
            && SuppliedBefore(cfg, entries, k, x.username, x.secure))
      && (x.CallPlain? ==> !ContainsCTL(x.identity) && !ContainsCTL(x.username))
  }

  /** The security layer changes only by a completed STLS with nothing pipelined behind it,
      before authentication; the username is forgotten with it. */
  predicate UpgradeSafe(cfg: Config, e: Entry) {
    e.before.isTLS != e.effect.next.isTLS ==>
      !e.before.isTLS && Upgrades(cfg, e.before, ParseCommand(e.line), e.env) && e.effect.next.username == ""
  }

  /** The layer never goes back. */
  ghost predicate LayerGrows(r: Run) {
    && (forall i, j :: 0 <= i < j < |r.entries| && r.entries[i].before.isTLS ==> r.entries[j].before.isTLS)
    && (forall i :: 0 <= i < |r.entries| && r.entries[i].before.isTLS ==> r.st.isTLS)
  }

  ghost predicate LayerSafe(cfg: Config, r: Run) {
    (forall k :: 0 <= k < |r.entries| ==> UpgradeSafe(cfg, r.entries[k])) && LayerGrows(r)
  }

  ghost predicate CredentialsSafe(cfg: Config, r: Run) {
    && (r.st.username != "" ==> SuppliedBefore(cfg, r.entries, |r.entries|, r.st.username, r.st.isTLS))
    && (forall k :: 0 <= k < |r.entries| ==> LoginSafe(cfg, r.entries, k))
    && LayerSafe(cfg, r)
  }

  lemma SuppliedStays(cfg: Config, entries: seq<Entry>, e: Entry, k: nat, username: string, secure: bool)
    requires k <= |entries|
    ensures SuppliedBefore(cfg, entries, k, username, secure) ==>
              SuppliedBefore(cfg, entries + [e], k, username, secure)
              && SuppliedBefore(cfg, entries + [e], |entries| + 1, username, secure)
  {
    if SuppliedBefore(cfg, entries, k, username, secure) {
      var j :| 0 <= j < k && SuppliedAt(cfg, entries[j], username, secure);
      assert (entries + [e])[j] == entries[j];
    }
  }

  lemma SuppliedIsToken(cfg: Config, entries: seq<Entry>, k: nat, username: string, secure: bool)
    requires k <= |entries| && SuppliedBefore(cfg, entries, k, username, secure)
    ensures IsToken(username) && !ContainsCTL(username)
  {
    var j :| 0 <= j < k && SuppliedAt(cfg, entries[j], username, secure);
    var c := ParseCommand(entries[j].line);
    assert c.args[0] in Fields(c.raw);
  }

  lemma LoginStaysSafe(cfg: Config, entries: seq<Entry>, e: Entry, k: nat)
    requires k < |entries| && LoginSafe(cfg, entries, k)
    ensures LoginSafe(cfg, entries + [e], k)
  {
    var all := entries + [e];
    forall i | 0 <= i < |all[k].effect.calls| && all[k].effect.calls[i].CallLogin?
      ensures var x := all[k].effect.calls[i]; SuppliedBefore(cfg, all, k, x.username, x.secure)
    {
      var x := entries[k].effect.calls[i];
      SuppliedStays(cfg, entries, e, k, x.username, x.secure);
    }
  }

  lemma EntryLoginSafe(cfg: Config, r: Run, e: Entry)
    requires CredentialsSafe(cfg, r)
    requires e.before == r.st && Sound(cfg, r.st, ParseCommand(e.line), e.env, e.effect)
    ensures LoginSafe(cfg, r.entries + [e], |r.entries|)
  {
    var n := |r.entries|;
    var all := r.entries + [e];
    forall i | 0 <= i < |e.effect.calls| && e.effect.calls[i].CallLogin?
      ensures var x := e.effect.calls[i];
              IsToken(x.username) && !ContainsCTL(x.username) && SuppliedBefore(cfg, all, n, x.username, x.secure)
    {
      SuppliedStays(cfg, r.entries, e, n, r.st.username, r.st.isTLS);
      SuppliedIsToken(cfg, r.entries, n, r.st.username, r.st.isTLS);
    }
  }

  lemma EntryNameSupplied(cfg: Config, r: Run, e: Entry)
    requires CredentialsSafe(cfg, r)
    requires e.before == r.st && Sound(cfg, r.st, ParseCommand(e.line), e.env, e.effect)
    requires e.effect.next.username != ""
    ensures SuppliedBefore(cfg, r.entries + [e], |r.entries| + 1, e.effect.next.username, e.effect.next.isTLS)
  {
    if e.effect.next.username == r.st.username && e.effect.next.isTLS == r.st.isTLS {
      SuppliedStays(cfg, r.entries, e, |r.entries|, r.st.username, r.st.isTLS);
    } else {
      assert SuppliedAt(cfg, (r.entries + [e])[|r.entries|], e.effect.next.username, e.effect.next.isTLS);
    }
  }

  lemma AdvanceLayer(cfg: Config, r: Run, line: string, env: Env, effect: Effect)
    requires LayerSafe(cfg, r) && NameKept(cfg, r.st, ParseCommand(line), env, effect)
    ensures LayerSafe(cfg, Advance(cfg, r, line, env, effect))
  {
    hide Render, RenderEffect, ParseCommand, Upgrades, Supplies, MaxErrorsExceeded;
  }

  lemma SoundKeepsName(cfg: Config, st: ConnState, c: Command, env: Env, e: Effect)
    requires Sound(cfg, st, c, env, e)
    ensures NameKept(cfg, st, c, env, e)
  {
  }

  lemma AdvanceCredentials(cfg: Config, r: Run, line: string, env: Env, effect: Effect)
    requires CredentialsSafe(cfg, r) && Sound(cfg, r.st, ParseCommand(line), env, effect)
    ensures CredentialsSafe(cfg, Advance(cfg, r, line, env, effect))
  {
    hide Render, RenderEffect, LoginSafe, LayerSafe, SuppliedBefore, Sound, ParseCommand, MaxErrorsExceeded;
    var e := Entry(line, r.st, env, effect);
    var all := r.entries + [e];
    SoundKeepsName(cfg, r.st, ParseCommand(line), env, effect);
    AdvanceLayer(cfg, r, line, env, effect);
    EntryLoginSafe(cfg, r, e);
    if effect.next.username != "" {
      EntryNameSupplied(cfg, r, e);
    }
    forall k | 0 <= k < |all|
      ensures LoginSafe(cfg, all, k)
    {
      if k < |r.entries| {
        LoginStaysSafe(cfg, r.entries, e, k);
      }
    }
  }

  lemma StepCredentials(cfg: Config, r: Run, event: Event)
    requires CredentialsSafe(cfg, r)
    ensures CredentialsSafe(cfg, Step(cfg, r, event))
  {
    if r.live && event.input.Received? && TrimSpace(event.input.line) != "" {
      var line := TrimSpace(event.input.line);
      var c := ParseCommand(line);
      DispatchSound(cfg, r.st, c, event.env);
      AdvanceCredentials(cfg, r, line, event.env, Dispatch(cfg, r.st, c, event.env));
    }
  }

  lemma {:induction false} ExecCredentials(cfg: Config, r: Run, events: seq<Event>)
    requires CredentialsSafe(cfg, r)
    ensures CredentialsSafe(cfg, Exec(cfg, r, events))
    decreases |events|
  {
    if events != [] {
      StepCredentials(cfg, r, events[0]);
      ExecCredentials(cfg, Step(cfg, r, events[0]), events[1..]);
    }
  }

  /** In every run every login happens with TLS or where insecure authentication is allowed;
      a username passed to Login is a token without control characters that a USER command
      supplied on the same side of the STLS upgrade; and the upgrade happens only with nothing
      pipelined behind STLS, never twice and never back. */
  lemma CredentialsWithinOneLayer(cfg: Config, isTLS: bool, flushed: bool, events: seq<Event>)
    ensures CredentialsSafe(cfg, Exec(cfg, Start(cfg, isTLS, flushed), events))
  {
    ExecCredentials(cfg, Start(cfg, isTLS, flushed), events);
  }
}
