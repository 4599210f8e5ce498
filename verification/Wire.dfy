/** Runs from bytes: the connection takes its lines, and the lines its commands ask for, off the
    bytes the client sends, in plaintext and, once STLS has completed, over TLS. */
module Wire {
  import opened Lines
  import opened Text
  import opened Sessions
  import opened LineReader
  import opened Protocol
  import Discipline
  import CredentialSafety

  datatype Ending = Idle | Expired | Gone

  /** All that one turn of the loop depends on besides the bytes: the session, how many bytes
      behind the command have arrived in the buffer when STLS looks, whether the handshake and
      the flush succeed, and how a stream that yields no more lines ends. */
  datatype Chance = Chance(session: Session, arrived: nat, handshake: bool, flushed: bool, ending: Ending)

  /** A line taken off a stream, and off which. */
  datatype Heard = Heard(line: string, secure: bool)

  /** A run, the bytes still to come in plaintext and over TLS, and every line taken so far. */
  datatype ByteRun = ByteRun(run: Run, plain: string, secure: string, heard: seq<Heard>)

  function FailureOf(e: ReadError, ending: Ending): Failure {
    match e
    case LineTooLong => Failure.LineTooLong
    case EndOfStream =>
      match ending
      case Idle => IdleTimeout
      case Expired => AbsoluteTimeout
      case Gone => Disconnected
  }

  function Take(cfg: Config, s: string): Taken {
    TakeLine(cfg.maxLineLength, cfg.bufferSize, s)
  }

  /** How many bytes the reader's buffer holds: of those that arrived, those there are. */
  function Buffered(arrived: nat, s: string): nat {
    if arrived < |s| then arrived else |s|
  }

  /** The environment of a command behind which the stream goes on with `s`. */
  function EnvAt(cfg: Config, ch: Chance, s: string): Env {
    Env(ch.session,
        match Take(cfg, s) case Took(line, _) => Some(line) case NoLine(_) => None,
        Buffered(ch.arrived, s) > 0, ch.handshake, ch.flushed)
  }

  function EffectOf(cfg: Config, st: ConnState, raw: string, env: Env): Effect
    requires TrimSpace(raw) != ""
  {
    Dispatch(cfg, st, ParseCommand(TrimSpace(raw)), env)
  }

  /** Whether a command read in this state takes a further line off the stream. */
  predicate Prompts(cfg: Config, st: ConnState, raw: string, env: Env) {
    TrimSpace(raw) != "" && EffectOf(cfg, st, raw, env).prompted
  }

  /** The lines a command takes besides its own, and the stream behind them. */
  function Further(cfg: Config, prompted: bool, s: string): (seq<string>, string) {
    if !prompted then ([], s)
    else
      match Take(cfg, s)
      case Took(line, rest) => ([line], rest)
      case NoLine(_) => ([], s)
  }

  function OnLayer(lines: seq<string>, secure: bool): (hs: seq<Heard>)
    ensures |hs| == |lines|
  {
    seq(|lines|, i requires 0 <= i < |lines| => Heard(lines[i], secure))
  }

  function Stream(b: ByteRun): string {
    if b.run.st.isTLS then b.secure else b.plain
  }

  function WithStream(b: ByteRun, s: string): ByteRun {
    if b.run.st.isTLS then b.(secure := s) else b.(plain := s)
  }

  /** What the run sees of one turn. */
  function EventOf(cfg: Config, b: ByteRun, ch: Chance): Event {
    match Take(cfg, Stream(b))
    case Took(raw, rest) => Event(Received(raw), EnvAt(cfg, ch, rest))
    case NoLine(e) => Event(ReadFailed(FailureOf(e, ch.ending)), EnvAt(cfg, ch, ""))
  }

  /** One turn of the loop, from the bytes. */
  function Turn(cfg: Config, b: ByteRun, ch: Chance): ByteRun {
    if !b.run.live then b
    else
      var run := Step(cfg, b.run, EventOf(cfg, b, ch));
      match Take(cfg, Stream(b))
      case NoLine(_) => b.(run := run)
      case Took(raw, rest) =>
        var (lines, left) := Further(cfg, Prompts(cfg, b.run.st, raw, EnvAt(cfg, ch, rest)), rest);
        WithStream(b, left).(run := run, heard := b.heard + OnLayer([raw] + lines, b.run.st.isTLS))
  }

  function Play(cfg: Config, b: ByteRun, chs: seq<Chance>): ByteRun
    decreases |chs|
  {
    if chs == [] then b else Play(cfg, Turn(cfg, b, chs[0]), chs[1..])
  }

  function EventsOf(cfg: Config, b: ByteRun, chs: seq<Chance>): seq<Event>
    decreases |chs|
  {
    if chs == [] then [] else [EventOf(cfg, b, chs[0])] + EventsOf(cfg, Turn(cfg, b, chs[0]), chs[1..])
  }

  lemma TurnFailed(cfg: Config, b: ByteRun, ch: Chance)
    requires b.run.live && Take(cfg, Stream(b)).NoLine?
    ensures Turn(cfg, b, ch) == b.(run := Abandon(b.run, FailureOf(Take(cfg, Stream(b)).error, ch.ending)))
  {
    hide Take, Abandon, FailureOf;
  }

  lemma TurnTook(cfg: Config, b: ByteRun, ch: Chance)
    requires b.run.live && Take(cfg, Stream(b)).Took?
    ensures var raw, rest, layer := Take(cfg, Stream(b)).line, Take(cfg, Stream(b)).rest, b.run.st.isTLS;
            var line, env := TrimSpace(raw), EnvAt(cfg, ch, rest);
            if line == "" then
              Turn(cfg, b, ch) == WithStream(b, rest).(heard := b.heard + [Heard(raw, layer)])
            else
              var e := Dispatch(cfg, b.run.st, ParseCommand(line), env);
              var more := Further(cfg, e.prompted, rest);
              Turn(cfg, b, ch) == WithStream(b, more.1).(
                run := Advance(cfg, b.run, line, env, e),
                heard := b.heard + [Heard(raw, layer)] + OnLayer(more.0, layer))
  {
    hide Take, Advance, Dispatch, ParseCommand, TrimSpace;
    var raw, rest, layer := Take(cfg, Stream(b)).line, Take(cfg, Stream(b)).rest, b.run.st.isTLS;
    var lines := Further(cfg, Prompts(cfg, b.run.st, raw, EnvAt(cfg, ch, rest)), rest).0;
    assert OnLayer([raw] + lines, layer) == [Heard(raw, layer)] + OnLayer(lines, layer);
    assert OnLayer([raw], layer) == [Heard(raw, layer)];
    assert [raw] + [] == [raw];
  }

  lemma TurnIsStep(cfg: Config, b: ByteRun, ch: Chance)
    ensures Turn(cfg, b, ch).run == Step(cfg, b.run, EventOf(cfg, b, ch))
  {
    hide Step, Take, Prompts;
    if !b.run.live {
      StepDead(cfg, b.run, EventOf(cfg, b, ch));
    }
  }

  lemma StepDead(cfg: Config, r: Run, event: Event)
    requires !r.live
    ensures Step(cfg, r, event) == r
  {
  }

  lemma {:induction false} PlayDead(cfg: Config, b: ByteRun, chs: seq<Chance>)
    requires !b.run.live
    ensures Play(cfg, b, chs) == b
    decreases |chs|
  {
    if chs != [] {
      PlayDead(cfg, b, chs[1..]);
    }
  }

  lemma {:induction false} PlaySplit(cfg: Config, b: ByteRun, chs: seq<Chance>, i: nat)
    requires i <= |chs|
    ensures Play(cfg, b, chs) == Play(cfg, Play(cfg, b, chs[..i]), chs[i..])
    decreases |chs|
  {
    hide Turn;
    if i == 0 {
      assert chs[0..] == chs;
    } else {
      PlaySplit(cfg, Turn(cfg, b, chs[0]), chs[1..], i - 1);
      assert chs[..i][1..] == chs[1..][..i - 1] && chs[1..][i - 1..] == chs[i..];
    }
  }

  lemma PlayNext(cfg: Config, b: ByteRun, chs: seq<Chance>, i: nat)
    requires i < |chs|
    ensures Play(cfg, b, chs[..i + 1]) == Turn(cfg, Play(cfg, b, chs[..i]), chs[i])
  {
    hide Turn;
    PlaySplit(cfg, b, chs[..i + 1], i);
    assert chs[..i + 1][..i] == chs[..i] && chs[..i + 1][i..] == [chs[i]];
    var b1 := Play(cfg, b, chs[..i]);
    assert Play(cfg, b1, [chs[i]]) == Play(cfg, Turn(cfg, b1, chs[i]), []);
  }

  /** A run from bytes is a run: what holds over all runs holds over all byte streams. */
  lemma {:induction false} PlayIsExec(cfg: Config, b: ByteRun, chs: seq<Chance>)
    ensures Play(cfg, b, chs).run == Exec(cfg, b.run, EventsOf(cfg, b, chs))
    decreases |chs|
  {
    hide Turn, EventOf, Step;
    if chs != [] {
      TurnIsStep(cfg, b, chs[0]);
      PlayIsExec(cfg, Turn(cfg, b, chs[0]), chs[1..]);
      assert EventsOf(cfg, b, chs)[1..] == EventsOf(cfg, Turn(cfg, b, chs[0]), chs[1..]);
    }
  }

  // ----- Which bytes the lines come from -----

  /** Taking lines off `s` one after the other gives these and leaves `rest`. */
  predicate Yields(cfg: Config, s: string, lines: seq<string>, rest: string)
    decreases |lines|
  {
    if lines == [] then s == rest
    else Take(cfg, s).Took? && Take(cfg, s).line == lines[0] && Yields(cfg, Take(cfg, s).rest, lines[1..], rest)
  }

  lemma {:induction false} YieldsMore(cfg: Config, s: string, lines: seq<string>, mid: string,
                                      more: seq<string>, rest: string)
    requires Yields(cfg, s, lines, mid) && Yields(cfg, mid, more, rest)
    ensures Yields(cfg, s, lines + more, rest)
    decreases |lines|
  {
    hide Take;
    if lines == [] {
      assert lines + more == more;
    } else {
      assert (lines + more)[1..] == lines[1..] + more;
      YieldsMore(cfg, Take(cfg, s).rest, lines[1..], mid, more, rest);
    }
  }

  /** The lines taken on one layer, in order. */
  function LinesOn(heard: seq<Heard>, secure: bool): seq<string> {
    if heard == [] then []
    else LinesOn(heard[..|heard| - 1], secure) +
         if heard[|heard| - 1].secure == secure then [heard[|heard| - 1].line] else []
  }

  lemma LinesOnSnoc(heard: seq<Heard>, h: Heard, secure: bool)
    ensures LinesOn(heard + [h], secure) == LinesOn(heard, secure) + if h.secure == secure then [h.line] else []
  {
    assert (heard + [h])[..|heard|] == heard;
  }

  lemma {:induction false} LinesOnMore(heard: seq<Heard>, lines: seq<string>, layer: bool, secure: bool)
    ensures LinesOn(heard + OnLayer(lines, layer), secure) ==
            LinesOn(heard, secure) + if layer == secure then lines else []
    decreases |lines|
  {
    hide LinesOn;
    if lines == [] {
      assert heard + OnLayer(lines, layer) == heard;
    } else {
      var init, last := lines[..|lines| - 1], lines[|lines| - 1];
      LinesOnMore(heard, init, layer, secure);
      LinesOnSnoc(heard + OnLayer(init, layer), Heard(last, layer), secure);
      assert heard + OnLayer(lines, layer) == heard + OnLayer(init, layer) + [Heard(last, layer)];
      assert lines == init + [last];
    }
  }

  /** Every line heard so far is the next one of its layer's own stream; no line is lost between
      two of them; and none is heard in plaintext after one was heard over TLS. */
  ghost predicate Sourced(cfg: Config, plain: string, secure: string, b: ByteRun) {
    && Yields(cfg, plain, LinesOn(b.heard, false), b.plain)
    && Yields(cfg, secure, LinesOn(b.heard, true), b.secure)
    && (forall i, j :: 0 <= i < j < |b.heard| && b.heard[i].secure ==> b.heard[j].secure)
    && (forall i :: 0 <= i < |b.heard| && b.heard[i].secure ==> b.run.st.isTLS)
  }

  /** TLS is never left again, and entered only by STLS with an empty buffer. */
  lemma LayerKept(cfg: Config, b: ByteRun, ch: Chance)
    ensures b.run.st.isTLS ==> Turn(cfg, b, ch).run.st.isTLS
    ensures !b.run.st.isTLS && Turn(cfg, b, ch).run.st.isTLS ==>
              b.run.live && Take(cfg, b.plain).Took? && Buffered(ch.arrived, Take(cfg, b.plain).rest) == 0
  {
    hide Dispatch, ParseCommand, Take, Prompts, Render, RenderEffect;
    if b.run.live && Take(cfg, Stream(b)).Took? {
      var raw, rest := Take(cfg, Stream(b)).line, Take(cfg, Stream(b)).rest;
      if TrimSpace(raw) != "" {
        Discipline.DispatchSound(cfg, b.run.st, ParseCommand(TrimSpace(raw)), EnvAt(cfg, ch, rest));
      }
    }
  }

  lemma FurtherYields(cfg: Config, s: string, prompted: bool)
    requires Take(cfg, s).Took?
    ensures var raw, rest := Take(cfg, s).line, Take(cfg, s).rest;
            var (lines, left) := Further(cfg, prompted, rest);
            Yields(cfg, s, [raw] + lines, left)
  {
    hide Take;
    var raw, rest := Take(cfg, s).line, Take(cfg, s).rest;
    var (lines, left) := Further(cfg, prompted, rest);
    assert ([raw] + lines)[1..] == lines;
    assert Yields(cfg, left, [], left);
    assert lines != [] ==> lines[1..] == [];
    assert Yields(cfg, rest, lines, left);
  }

  lemma TurnSourced(cfg: Config, plain: string, secure: string, b: ByteRun, ch: Chance)
    requires Sourced(cfg, plain, secure, b)
    ensures Sourced(cfg, plain, secure, Turn(cfg, b, ch))
  {
    hide Step, Take, Prompts, Further, Yields, LinesOn;
    LayerKept(cfg, b, ch);
    if b.run.live && Take(cfg, Stream(b)).Took? {
      var raw, rest := Take(cfg, Stream(b)).line, Take(cfg, Stream(b)).rest;
      var prompted := Prompts(cfg, b.run.st, raw, EnvAt(cfg, ch, rest));
      var (lines, left) := Further(cfg, prompted, rest);
      var layer := b.run.st.isTLS;
      FurtherYields(cfg, Stream(b), prompted);
      LinesOnMore(b.heard, [raw] + lines, layer, false);
      LinesOnMore(b.heard, [raw] + lines, layer, true);
      YieldsMore(cfg, if layer then secure else plain, LinesOn(b.heard, layer), Stream(b), [raw] + lines, left);
      assert LinesOn(b.heard, !layer) + [] == LinesOn(b.heard, !layer);
    }
  }

  lemma {:induction false} PlaySourced(cfg: Config, plain: string, secure: string, b: ByteRun, chs: seq<Chance>)
    requires Sourced(cfg, plain, secure, b)
    ensures Sourced(cfg, plain, secure, Play(cfg, b, chs))
    decreases |chs|
  {
    hide Sourced, Turn;
    if chs != [] {
      TurnSourced(cfg, plain, secure, b, chs[0]);
      PlaySourced(cfg, plain, secure, Turn(cfg, b, chs[0]), chs[1..]);
    }
  }

  function Connect(cfg: Config, isTLS: bool, flushed: bool, plain: string, secure: string): ByteRun {
    ByteRun(Start(cfg, isTLS, flushed), plain, secure, [])
  }

  /** Over every run from bytes: the lines heard in plaintext are the first ones of the plaintext,
      those heard over TLS the first ones of the TLS stream, from its first byte on, and the
      former all come before the latter. */
  lemma LinesStayOnTheirLayer(cfg: Config, isTLS: bool, flushed: bool, plain: string, secure: string, chs: seq<Chance>)
    ensures Sourced(cfg, plain, secure, Play(cfg, Connect(cfg, isTLS, flushed, plain, secure), chs))
  {
    PlaySourced(cfg, plain, secure, Connect(cfg, isTLS, flushed, plain, secure), chs);
  }

  lemma TurnIgnoresPlain(cfg: Config, b: ByteRun, plain: string, ch: Chance)
    requires b.run.st.isTLS
    ensures Turn(cfg, b.(plain := plain), ch) == Turn(cfg, b, ch).(plain := plain)
  {
    hide Step, Take, Prompts, Further;
  }

  /** No plaintext byte counts after the upgrade: whatever is put in the place of the plaintext
      that is left, the run goes on the same. */
  lemma {:induction false} SecureIgnoresPlain(cfg: Config, b: ByteRun, plain: string, chs: seq<Chance>)
    requires b.run.st.isTLS
    ensures Play(cfg, b.(plain := plain), chs) == Play(cfg, b, chs).(plain := plain)
    decreases |chs|
  {
    hide Turn;
    if chs != [] {
      TurnIgnoresPlain(cfg, b, plain, chs[0]);
      LayerKept(cfg, b, chs[0]);
      SecureIgnoresPlain(cfg, Turn(cfg, b, chs[0]), plain, chs[1..]);
    }
  }

  /** What an upgrade finds: the plaintext that arrived was used up, and the TLS stream is still
      untouched, so that it is read from its first byte. */
  lemma UpgradeStartsAfresh(cfg: Config, b: ByteRun, ch: Chance)
    requires !b.run.st.isTLS && Turn(cfg, b, ch).run.st.isTLS
    ensures var b' := Turn(cfg, b, ch);
            && b'.secure == b.secure && Stream(b') == b.secure
            && (ch.arrived == 0 || Take(cfg, b.plain).rest == "")
            && b'.run.st.username == ""
  {
    hide Dispatch, ParseCommand, Take, Prompts, Further, Render, RenderEffect;
    LayerKept(cfg, b, ch);
    var raw, rest := Take(cfg, b.plain).line, Take(cfg, b.plain).rest;
    if TrimSpace(raw) != "" {
      Discipline.DispatchSound(cfg, b.run.st, ParseCommand(TrimSpace(raw)), EnvAt(cfg, ch, rest));
    }
  }

  /** The credentials of a run from bytes stay on the layer they were given on, together with the
      lines that carried them. */
  lemma CredentialsFromBytes(cfg: Config, isTLS: bool, flushed: bool, plain: string, secure: string, chs: seq<Chance>)
    ensures var b := Play(cfg, Connect(cfg, isTLS, flushed, plain, secure), chs);
            CredentialSafety.CredentialsSafe(cfg, b.run) && Sourced(cfg, plain, secure, b)
  {
    hide CredentialSafety.CredentialsSafe, Sourced, Play;
    var b := Connect(cfg, isTLS, flushed, plain, secure);
    PlayIsExec(cfg, b, chs);
    CredentialSafety.CredentialsWithinOneLayer(cfg, isTLS, flushed, EventsOf(cfg, b, chs));
    LinesStayOnTheirLayer(cfg, isTLS, flushed, plain, secure, chs);
  }
}
