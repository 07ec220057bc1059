/** The supervised child process: its status machine and its log lines.
    Each event below is one synchronous segment of the handle's code. */
module NodeProcess {
  import opened Framing
  import opened Options

  /** JavaScript text: a sequence of UTF-16 code units. */
  type Unit = u: int | 0 <= u < 0x1_0000

  type Text = seq<Unit>

  const CR: Unit := 13
  const LF: Text := [10]
  const ELLIPSIS: Text := [0x2026]

  datatype Stream = Stdout | Stderr

  datatype Status = Starting | Ready | Stopped | Crashed

  /** readyAbort: no check was configured, one is running, or it was aborted. */
  datatype Probe = NoCheck | Checking | Aborted

  datatype Config = Config(readyCheck: bool, maxLineBytes: nat)

  /** One stream: the text held for the next line, and the log lines emitted so far. */
  datatype Output = Output(buffer: Text, lines: seq<Text>)

  /** gone: the child's exitCode or signalCode is set, which happens before its exit event.
      statuses and errors are the status and error events emitted so far. */
  datatype Handle = Handle(status: Status, stopping: bool, gone: bool, exited: bool, probe: Probe,
                           statuses: seq<Status>, errors: nat, stdout: Output, stderr: Output)
  {
    function On(s: Stream): Output { if s.Stdout? then stdout else stderr }

    function With(s: Stream, o: Output): Handle {
      if s.Stdout? then this.(stdout := o) else this.(stderr := o)
    }
  }

  /** What a listener does while the exit handler emits events: it may call stop(). */
  datatype Reaction = Reaction(stopOnTail: bool, stopOnError: bool)

  /** How the ready check ends: with its answer, or by throwing. */
  datatype ProbeResult = Passed | NotReady | Threw

  datatype Event =
    | ReadyTimer
    | ProbeSettled(result: ProbeResult)
    | StopCalled
    | ChildGone
    | ChildError
    | ChildExit(code: Option<int>, signal: bool, reaction: Reaction)
    | Chunk(stream: Stream, text: Text)

  function StripCr(s: Text): Text {
    if s != [] && s[|s| - 1] == CR then s[..|s| - 1] else s
  }

  function LineOf(raw: Text, max: nat): Text {
    var line := StripCr(raw);
    if |line| > max then line[..max] + ELLIPSIS else line
  }

  function TransitionTo(h: Handle, s: Status): Handle {
    if h.status == s then h else h.(status := s, statuses := h.statuses + [s])
  }

  predicate Terminal(s: Status) { s.Stopped? || s.Crashed? }

  function Cancelled(h: Handle): Handle {
    if h.probe.Checking? then h.(probe := Aborted) else h
  }

  function Stop(h: Handle): Handle {
    if Terminal(h.status) || h.stopping then h
    else
      var g := Cancelled(h.(stopping := true));
      if g.gone then TransitionTo(g, Stopped) else g
  }

  function Flushed(o: Output): Output {
    if o.buffer == [] then o else Output([], o.lines + [StripCr(o.buffer)])
  }

  /** The exit handler up to its first look at `stopping`. */
  function Drain(h: Handle, r: Reaction): Handle {
    var tails := h.stdout.buffer != [] || h.stderr.buffer != [];
    var f := h.(gone := true, exited := true, stdout := Flushed(h.stdout), stderr := Flushed(h.stderr));
    Cancelled(if r.stopOnTail && tails then Stop(f) else f)
  }

  function Concluded(d: Handle, code: Option<int>, signal: bool, r: Reaction): Handle {
    if d.stopping || (!signal && code == Some(0)) then TransitionTo(d, Stopped)
    else
      var e := d.(errors := d.errors + 1);
      TransitionTo(if r.stopOnError then Stop(e) else e, Crashed)
  }

  function Exit(h: Handle, code: Option<int>, signal: bool, r: Reaction): Handle {
    Concluded(Drain(h, r), code, signal, r)
  }

  function LinesOf(raws: seq<Text>, max: nat): (r: seq<Text>)
    ensures |r| == |raws|
  {
    seq(|raws|, i requires 0 <= i < |raws| => LineOf(raws[i], max))
  }

  ghost function Received(o: Output, text: Text, max: nat): Output {
    var p := Split(o.buffer + text, LF);
    Output(p.held, o.lines + LinesOf(p.frames, max))
  }

  ghost function Step(c: Config, h: Handle, e: Event): Handle {
    match e
    case ReadyTimer => if !c.readyCheck && h.status.Starting? then TransitionTo(h, Ready) else h
    case ProbeSettled(result) =>
      if !h.probe.Checking? || (!result.Threw? && !h.status.Starting?) then h
      else if result.Passed? then TransitionTo(h, Ready)
      else h.(errors := h.errors + 1)
    case StopCalled => Stop(h)
    case ChildGone => h.(gone := true)
    case ChildError => h.(errors := h.errors + 1)
    case ChildExit(code, signal, r) => if h.exited then h else Exit(h, code, signal, r)
    case Chunk(s, text) => h.With(s, Received(h.On(s), text, c.maxLineBytes))
  }

  function Started(c: Config): Handle {
    Handle(Starting, false, false, false, if c.readyCheck then Checking else NoCheck, [], 0,
           Output([], []), Output([], []))
  }

  /** Every order of events is a sequence; an event that cannot happen yet changes nothing. */
  ghost function Run(c: Config, h: Handle, es: seq<Event>): Handle {
    if es == [] then h else Step(c, Run(c, h, es[..|es| - 1]), es[|es| - 1])
  }

  lemma RunSnoc(c: Config, h: Handle, es: seq<Event>, e: Event)
    ensures Run(c, h, es + [e]) == Step(c, Run(c, h, es), e)
  {
    assert (es + [e])[..|es|] == es;
  }

  lemma {:induction false} RunAppend(c: Config, h: Handle, a: seq<Event>, b: seq<Event>)
    ensures Run(c, h, a + b) == Run(c, Run(c, h, a), b)
    decreases |b|
  {
    if b == [] {
      assert a + b == a;
    } else {
      assert (a + b)[..|a + b| - 1] == a + b[..|b| - 1];
      RunAppend(c, h, a, b[..|b| - 1]);
    }
  }

  // ---- What holds of the status in every run ----

  /** starting, then optionally ready, then at most one of stopped and crashed. */
  predicate GoodPath(ss: seq<Status>) {
    && |ss| <= 2
    && (|ss| >= 1 ==> ss[0].Ready? || (Terminal(ss[0]) && |ss| == 1))
    && (|ss| == 2 ==> Terminal(ss[1]))
  }

  predicate Shows(ss: seq<Status>, s: Status) {
    s == if ss == [] then Starting else ss[|ss| - 1]
  }

  /** The one way off the path: stopped, then crashed. */
  predicate EndsTwice(ss: seq<Status>) { |ss| >= 2 && ss[|ss| - 2].Stopped? && ss[|ss| - 1].Crashed? }

  predicate Distinct(ss: seq<Status>) { forall i, j :: 0 <= i < j < |ss| ==> ss[i] != ss[j] }

  ghost predicate Inv(h: Handle) {
    && (if EndsTwice(h.statuses) then h.exited && GoodPath(h.statuses[..|h.statuses| - 1]) else GoodPath(h.statuses))
    && Shows(h.statuses, h.status)
    && (h.stopping ==> !h.probe.Checking?)
    && (Terminal(h.status) ==> h.stopping || h.exited)
    && (h.exited ==> Terminal(h.status) && !h.probe.Checking?)
    && (h.status.Crashed? ==> h.exited)
  }

  lemma PathIsDistinct(h: Handle)
    requires Inv(h)
    ensures Distinct(h.statuses) && Starting !in h.statuses
    ensures GoodPath(h.statuses) <==> !EndsTwice(h.statuses)
  {
    var ss := h.statuses;
    if EndsTwice(ss) {
      assert ss[..|ss| - 1][|ss| - 2] == ss[|ss| - 2];
      assert forall k :: 0 <= k < |ss| - 1 ==> ss[..|ss| - 1][k] == ss[k];
    }
  }

  predicate HoldsTail(h: Handle) { h.stdout.buffer != [] || h.stderr.buffer != [] }

  /** The exit ends the run in crashed. */
  predicate Crashes(h: Handle, code: Option<int>, signal: bool, r: Reaction) {
    (signal || code != Some(0)) && !h.stopping && !(r.stopOnTail && HoldsTail(h))
  }

  /** The statuses that one step adds, none of them ready. */
  predicate AddsNoReady(ss: seq<Status>, tt: seq<Status>) {
    tt == ss || tt == ss + [Stopped] || tt == ss + [Crashed] || tt == ss + [Stopped] + [Crashed]
  }

  lemma DrainStops(h: Handle, r: Reaction)
    requires Inv(h) && !h.exited
    ensures var d := Drain(h, r);
            && (d.stopping <==> h.stopping || (r.stopOnTail && HoldsTail(h)))
            && d.gone && d.exited && !d.probe.Checking?
            && if d.stopping && d.status != h.status
               then d.status.Stopped? && d.statuses == h.statuses + [Stopped] && !Terminal(h.status)
               else d.status == h.status && d.statuses == h.statuses
  {
  }

  lemma PathGoesOn(ss: seq<Status>, s: Status)
    requires GoodPath(ss) && (ss == [] || ss[|ss| - 1].Ready?) && Terminal(s)
    ensures GoodPath(ss + [s]) && Shows(ss + [s], s) && !EndsTwice(ss + [s])
    ensures EndsTwice(ss + [Stopped] + [Crashed])
  {
  }

  ghost predicate Outcome(h: Handle, code: Option<int>, signal: bool, r: Reaction, g: Handle) {
    && Inv(g) && g.exited && AddsNoReady(h.statuses, g.statuses)
    && (g.status.Crashed? <==> Crashes(h, code, signal, r))
    && (EndsTwice(g.statuses) <==> Crashes(h, code, signal, r) && r.stopOnError)
    && (Terminal(h.status) ==> g.statuses == h.statuses)
  }

  lemma CrashOutcome(h: Handle, code: Option<int>, signal: bool, r: Reaction)
    requires Inv(h) && !h.exited && Crashes(h, code, signal, r)
    ensures Outcome(h, code, signal, r, Exit(h, code, signal, r))
  {
    DrainStops(h, r);
    var g := Exit(h, code, signal, r);
    PathGoesOn(h.statuses, Stopped);
    PathGoesOn(h.statuses, Crashed);
    if r.stopOnError {
      assert g.statuses == h.statuses + [Stopped] + [Crashed];
      assert g.statuses[..|g.statuses| - 1] == h.statuses + [Stopped];
    } else {
      assert g.statuses == h.statuses + [Crashed];
    }
  }

  lemma StopOutcome(h: Handle, code: Option<int>, signal: bool, r: Reaction)
    requires Inv(h) && !h.exited && !Crashes(h, code, signal, r)
    ensures Outcome(h, code, signal, r, Exit(h, code, signal, r))
  {
    DrainStops(h, r);
    var g := Exit(h, code, signal, r);
    if Terminal(h.status) {
      assert g.statuses == h.statuses;
    } else {
      PathGoesOn(h.statuses, Stopped);
      assert g.statuses == h.statuses + [Stopped];
    }
  }

  lemma ExitOutcome(h: Handle, code: Option<int>, signal: bool, r: Reaction)
    requires Inv(h) && !h.exited
    ensures Outcome(h, code, signal, r, Exit(h, code, signal, r))
  {
    if Crashes(h, code, signal, r) { CrashOutcome(h, code, signal, r); } else { StopOutcome(h, code, signal, r); }
  }

  lemma StopKeepsInv(h: Handle)
    requires Inv(h)
    ensures Inv(Stop(h)) && AddsNoReady(h.statuses, Stop(h).statuses)
    ensures Terminal(h.status) ==> Stop(h) == h
    ensures Stop(h).exited == h.exited && (!h.probe.Checking? ==> !Stop(h).probe.Checking?)
  {
    if !Terminal(h.status) { PathGoesOn(h.statuses, Stopped); }
  }

  lemma ReadyKeepsInv(h: Handle)
    requires Inv(h) && h.status.Starting?
    ensures Inv(TransitionTo(h, Ready))
  {
    assert h.statuses + [Ready] == [Ready];
  }

  /** Steps that leave all of the status alone. */
  lemma StatusUntouched(h: Handle, g: Handle)
    requires Inv(h) && g == h.(gone := g.gone, errors := g.errors, stdout := g.stdout, stderr := g.stderr)
    ensures Inv(g)
  {
  }

  lemma StepKeepsInv(c: Config, h: Handle, e: Event)
    requires Inv(h)
    ensures var g := Step(c, h, e);
            && Inv(g) && (g.exited <==> h.exited || e.ChildExit?)
            && (Terminal(h.status) ==> g.statuses == h.statuses)
            && (c.readyCheck && !h.probe.Checking? ==> AddsNoReady(h.statuses, g.statuses) && !g.probe.Checking?)
  {
    var g := Step(c, h, e);
    match e
    case ChildExit(code, signal, r) => if !h.exited { ExitOutcome(h, code, signal, r); }
    case StopCalled => StopKeepsInv(h);
    case ReadyTimer => if h.status.Starting? { ReadyKeepsInv(h); }
    case ProbeSettled(_) => if h.status.Starting? { ReadyKeepsInv(h); } else { StatusUntouched(h, g); }
    case ChildGone => StatusUntouched(h, g);
    case ChildError => StatusUntouched(h, g);
    case Chunk(s, _) => StatusUntouched(h, g);
  }

  lemma {:induction false} RunKeepsInv(c: Config, h: Handle, es: seq<Event>)
    requires Inv(h)
    ensures Inv(Run(c, h, es))
    ensures Terminal(h.status) ==> Run(c, h, es).statuses == h.statuses
    decreases |es|
  {
    if es == [] {
    } else {
      RunKeepsInv(c, h, es[..|es| - 1]);
      StepKeepsInv(c, Run(c, h, es[..|es| - 1]), es[|es| - 1]);
    }
  }

  /** A terminal status never changes again. */
  lemma TerminalStays(c: Config, es: seq<Event>, more: seq<Event>)
    requires Terminal(Run(c, Started(c), es).status)
    ensures var h := Run(c, Started(c), es);
            var g := Run(c, Started(c), es + more);
            g.status == h.status && g.statuses == h.statuses
  {
    RunKeepsInv(c, Started(c), es);
    RunAppend(c, Started(c), es, more);
    RunKeepsInv(c, Run(c, Started(c), es), more);
  }

  /** No status is emitted twice. */
  lemma StatusesAreDistinct(c: Config, es: seq<Event>)
    ensures var h := Run(c, Started(c), es);
            Distinct(h.statuses) && Starting !in h.statuses && Shows(h.statuses, h.status)
  {
    RunKeepsInv(c, Started(c), es);
    PathIsDistinct(Run(c, Started(c), es));
  }

  // ---- No ready after stop() ----

  predicate GrowsWithoutReady(ss: seq<Status>, tt: seq<Status>) { ss <= tt && Ready !in tt[|ss|..] }

  lemma GrowsOn(ss: seq<Status>, tt: seq<Status>, uu: seq<Status>)
    requires GrowsWithoutReady(ss, tt) && AddsNoReady(tt, uu)
    ensures GrowsWithoutReady(ss, uu)
  {
    assert uu[|ss|..] == tt[|ss|..] + uu[|tt|..];
  }

  lemma {:induction false} StoppedRun(c: Config, h: Handle, es: seq<Event>)
    requires c.readyCheck && Inv(h) && !h.probe.Checking?
    ensures var g := Run(c, h, es);
            Inv(g) && !g.probe.Checking? && GrowsWithoutReady(h.statuses, g.statuses)
    decreases |es|
  {
    if es == [] {
    } else {
      var g := Run(c, h, es[..|es| - 1]);
      StoppedRun(c, h, es[..|es| - 1]);
      StepKeepsInv(c, g, es[|es| - 1]);
      GrowsOn(h.statuses, g.statuses, Step(c, g, es[|es| - 1]).statuses);
    }
  }

  /** With a readyCheck, no ready follows stop(). */
  lemma NoReadyAfterStop(c: Config, pre: seq<Event>, post: seq<Event>)
    requires c.readyCheck
    ensures var before := Run(c, Started(c), pre + [StopCalled]).statuses;
            var after := Run(c, Started(c), pre + [StopCalled] + post).statuses;
            GrowsWithoutReady(before, after)
  {
    RunKeepsInv(c, Started(c), pre);
    StepKeepsInv(c, Run(c, Started(c), pre), StopCalled);
    RunSnoc(c, Started(c), pre, StopCalled);
    RunAppend(c, Started(c), pre + [StopCalled], post);
    StoppedRun(c, Run(c, Started(c), pre + [StopCalled]), post);
  }

  /** Without one, ready may still appear between stop() and the exit. */
  lemma ReadyMayFollowStop(max: nat)
    ensures var c := Config(false, max);
            var es := [StopCalled, ReadyTimer, ChildExit(Some(0), false, Reaction(false, false))];
            Run(c, Started(c), es).statuses == [Ready, Stopped]
  {
    var c := Config(false, max);
    var exit := ChildExit(Some(0), false, Reaction(false, false));
    RunThree(c, Started(c), StopCalled, ReadyTimer, exit);
    StopThenReady(Stop(Started(c)));
  }

  lemma RunThree(c: Config, h: Handle, a: Event, b: Event, e: Event)
    ensures Run(c, h, [a, b, e]) == Step(c, Step(c, Step(c, h, a), b), e)
  {
    RunSnoc(c, h, [], a);
    RunSnoc(c, h, [a], b);
    RunSnoc(c, h, [a, b], e);
    assert [] + [a] == [a] && [a] + [b] == [a, b] && [a, b] + [e] == [a, b, e];
  }

  lemma StopThenReady(h: Handle)
    requires h.stopping && h.status.Starting? && h.statuses == [] && !h.exited
    ensures Exit(TransitionTo(h, Ready), Some(0), false, Reaction(false, false)).statuses == [Ready, Stopped]
  {
    assert [] + [Ready] + [Stopped] == [Ready, Stopped];
  }

  /** With the child gone, stop() emits stopped at once. */
  lemma GoneThenStopped(c: Config)
    requires !c.readyCheck
    ensures var h := Run(c, Started(c), [ChildGone, ReadyTimer, StopCalled]);
            h.status == Stopped && h.statuses == [Ready, Stopped]
  {
    RunThree(c, Started(c), ChildGone, ReadyTimer, StopCalled);
    ReadyThenStop(Started(c).(gone := true));
  }

  lemma ReadyThenStop(h: Handle)
    requires h.gone && !h.stopping && h.status.Starting? && h.statuses == []
    ensures var g := Stop(TransitionTo(h, Ready)); g.status == Stopped && g.statuses == [Ready, Stopped]
  {
    assert [] + [Ready] + [Stopped] == [Ready, Stopped];
  }

  // ---- Log lines ----

  function TextOn(es: seq<Event>, s: Stream): Text {
    if es == [] then []
    else
      var last := es[|es| - 1];
      var before := TextOn(es[..|es| - 1], s);
      if last.Chunk? && last.stream == s then before + last.text else before
  }

  /** What a stream's whole text shows: cut at LF, one CR dropped, cut to length; the rest is held. */
  ghost function Shown(text: Text, max: nat): Output {
    var p := Split(text, LF);
    Output(p.held, LinesOf(p.frames, max))
  }

  lemma ReceivedShown(text: Text, chunk: Text, max: nat)
    ensures Received(Shown(text, max), chunk, max) == Shown(text + chunk, max)
  {
    SplitAppend(text, chunk, LF);
    var p, q := Split(text, LF), Split(Split(text, LF).held + chunk, LF);
    assert LinesOf(p.frames + q.frames, max) == LinesOf(p.frames, max) + LinesOf(q.frames, max);
  }

  lemma NoLf(s: Text)
    requires !Contains(s, LF)
    ensures LF[0] !in s
  {
    if i :| 0 <= i < |s| && s[i] == LF[0] {
      assert OccursAt(s, LF, i);
    }
  }

  /** The line is the text between two line ends: without its one last CR, and, if it is longer than max, its first
      max units and an ellipsis. */
  ghost predicate IsLine(raw: Text, max: nat, line: Text) {
    exists t :: WithoutCr(raw, t) && if |t| > max then line == t[..max] + [0x2026] else line == t
  }

  ghost predicate WithoutCr(raw: Text, t: Text) {
    raw == t + [13] || (raw == t && (t == [] || t[|t| - 1] != 13))
  }

  lemma LineIs(raw: Text, max: nat)
    ensures WithoutCr(raw, StripCr(raw)) && IsLine(raw, max, LineOf(raw, max))
  {
    if raw != [] && raw[|raw| - 1] == CR { assert raw == raw[..|raw| - 1] + [13]; }
  }

  /** One line for each piece of the text that ends in LF. */
  ghost predicate AreLines(text: Text, max: nat, lines: seq<Text>) {
    var frames := Split(text, LF).frames;
    |lines| == |frames| && forall k :: 0 <= k < |frames| ==> IsLine(frames[k], max, lines[k])
  }

  lemma ShownAreLines(text: Text, max: nat)
    ensures AreLines(text, max, Shown(text, max).lines)
  {
    var frames := Split(text, LF).frames;
    forall k | 0 <= k < |frames| ensures IsLine(frames[k], max, Shown(text, max).lines[k]) { LineIs(frames[k], max); }
  }

  /** Before the exit event, a stream's lines and its held text depend only on the concatenation of its
      chunks, and the held text has no LF. */
  lemma {:induction false} LinesDependOnText(c: Config, es: seq<Event>, s: Stream)
    requires !HasExit(es)
    ensures var h := Run(c, Started(c), es);
            && h.On(s) == Shown(TextOn(es, s), c.maxLineBytes)
            && LF[0] !in h.On(s).buffer
            && !h.exited
    decreases |es|
  {
    NoLf(Split(TextOn(es, s), LF).held);
    if es == [] {
      SplitOpen([], LF);
    } else {
      var pre, e := es[..|es| - 1], es[|es| - 1];
      HasExitSnoc(pre, e);
      assert es == pre + [e];
      LinesDependOnText(c, pre, s);
      OutputStep(c, Run(c, Started(c), pre), e, s, TextOn(pre, s));
    }
  }

  lemma OutputStep(c: Config, h: Handle, e: Event, s: Stream, text: Text)
    requires !e.ChildExit? && h.On(s) == Shown(text, c.maxLineBytes)
    ensures var g := Step(c, h, e);
            && g.exited == h.exited
            && g.On(s) == Shown(if e.Chunk? && e.stream == s then text + e.text else text, c.maxLineBytes)
  {
    if e.Chunk? { ReceivedShown(text, e.text, c.maxLineBytes); }
  }

  /** Each line is what its part of that text says. */
  lemma LinesAre(c: Config, es: seq<Event>, s: Stream)
    requires !HasExit(es)
    ensures AreLines(TextOn(es, s), c.maxLineBytes, Run(c, Started(c), es).On(s).lines)
  {
    LinesDependOnText(c, es, s);
    ShownAreLines(TextOn(es, s), c.maxLineBytes);
  }

  /** A held text becomes one more line, whole, without its one last CR. */
  ghost predicate AddsTail(before: Output, after: Output) {
    if before.buffer == [] then after == before
    else exists t :: WithoutCr(before.buffer, t) && after == Output([], before.lines + [t])
  }

  /** The exit event adds a non-empty tail once, whole, with one CR dropped, and empties the buffer. */
  lemma ExitFlushesTail(c: Config, es: seq<Event>, code: Option<int>, signal: bool, r: Reaction, s: Stream)
    requires !HasExit(es)
    ensures AddsTail(Shown(TextOn(es, s), c.maxLineBytes),
                     Run(c, Started(c), es + [ChildExit(code, signal, r)]).On(s))
  {
    RunSnoc(c, Started(c), es, ChildExit(code, signal, r));
    LinesDependOnText(c, es, s);
    ExitOutput(Run(c, Started(c), es), code, signal, r, s);
    FlushedAddsTail(Shown(TextOn(es, s), c.maxLineBytes));
  }

  lemma FlushedAddsTail(o: Output)
    ensures AddsTail(o, Flushed(o))
  {
    LineIs(o.buffer, 0);
  }

  lemma ExitOutput(h: Handle, code: Option<int>, signal: bool, r: Reaction, s: Stream)
    ensures Exit(h, code, signal, r).On(s) == Flushed(h.On(s))
  {
    assert Drain(h, r).On(s) == Flushed(h.On(s));
  }

  // ---- The first exit decides ----

  predicate HasExit(es: seq<Event>) { exists i :: 0 <= i < |es| && es[i].ChildExit? }

  lemma HasExitSnoc(pre: seq<Event>, e: Event)
    ensures HasExit(pre + [e]) <==> HasExit(pre) || e.ChildExit?
  {
    if i :| 0 <= i < |pre| && pre[i].ChildExit? { assert (pre + [e])[i].ChildExit?; }
    if e.ChildExit? { assert (pre + [e])[|pre|].ChildExit?; }
  }

  /** The text does not end with a line end, so the exit handler emits its tail. */
  predicate OpenEnded(text: Text) { text != [] && text[|text| - 1] != LF[0] }

  lemma HeldIff(text: Text)
    ensures Split(text, LF).held != [] <==> OpenEnded(text)
  {
    var p := Split(text, LF);
    NoLf(p.held);
    JoinedEnd(p.frames);
    if p.held != [] { assert text[|text| - 1] == p.held[|p.held| - 1]; }
  }

  lemma {:induction false} JoinedEnd(frames: seq<Text>)
    ensures var j := Joined(frames, LF); j != [] ==> j[|j| - 1] == LF[0]
    decreases |frames|
  {
    if frames == [] {
    } else {
      JoinedEnd(frames[1..]);
    }
  }

  /** An exit of the crash kind, with no stop() before it, on a listener's hearing of a tail included. */
  predicate CrashesAt(pre: seq<Event>, e: Event) {
    && e.ChildExit? && (e.signal || e.code != Some(0))
    && StopCalled !in pre
    && !(e.reaction.stopOnTail && (OpenEnded(TextOn(pre, Stdout)) || OpenEnded(TextOn(pre, Stderr))))
  }

  /** The first exit is such an exit. */
  predicate CrashedIn(es: seq<Event>) {
    && es != []
    && if HasExit(es[..|es| - 1]) then CrashedIn(es[..|es| - 1]) else CrashesAt(es[..|es| - 1], es[|es| - 1])
  }

  /** And a listener answers its error event with the run's first stop(). */
  predicate Broken(es: seq<Event>) {
    && es != []
    && if HasExit(es[..|es| - 1]) then Broken(es[..|es| - 1])
       else CrashesAt(es[..|es| - 1], es[|es| - 1]) && es[|es| - 1].reaction.stopOnError
  }

  lemma StoppingStep(c: Config, h: Handle, e: Event)
    requires Inv(h) && !h.exited && !e.ChildExit?
    ensures Step(c, h, e).stopping <==> h.stopping || e == StopCalled
  {
  }

  lemma {:induction false} BeforeExit(c: Config, es: seq<Event>)
    requires !HasExit(es)
    ensures var h := Run(c, Started(c), es);
            && Inv(h) && !h.exited && (h.stopping <==> StopCalled in es)
            && (HoldsTail(h) <==> OpenEnded(TextOn(es, Stdout)) || OpenEnded(TextOn(es, Stderr)))
    decreases |es|
  {
    LinesDependOnText(c, es, Stdout);
    LinesDependOnText(c, es, Stderr);
    HeldIff(TextOn(es, Stdout));
    HeldIff(TextOn(es, Stderr));
    RunKeepsInv(c, Started(c), es);
    if es == [] {
    } else {
      var pre, e := es[..|es| - 1], es[|es| - 1];
      assert es == pre + [e];
      HasExitSnoc(pre, e);
      BeforeExit(c, pre);
      StoppingStep(c, Run(c, Started(c), pre), e);
    }
  }

  /** What one step does to crashed and to the path. */
  lemma StepDecides(c: Config, h: Handle, e: Event)
    requires Inv(h)
    ensures var g := Step(c, h, e);
            && Inv(g) && (g.exited <==> h.exited || e.ChildExit?)
            && (h.exited ==> g.status == h.status && g.statuses == h.statuses)
            && (!h.exited && e.ChildExit? ==>
                  && (g.status.Crashed? <==> Crashes(h, e.code, e.signal, e.reaction))
                  && (EndsTwice(g.statuses) <==> Crashes(h, e.code, e.signal, e.reaction) && e.reaction.stopOnError))
  {
    StepKeepsInv(c, h, e);
    if e.ChildExit? && !h.exited { ExitOutcome(h, e.code, e.signal, e.reaction); }
  }

  ghost predicate Decided(h: Handle, es: seq<Event>) {
    && Inv(h) && (h.exited <==> HasExit(es))
    && (h.status.Crashed? <==> CrashedIn(es))
    && (EndsTwice(h.statuses) <==> Broken(es))
  }

  lemma DecidedStep(c: Config, pre: seq<Event>, e: Event)
    requires Decided(Run(c, Started(c), pre), pre)
    ensures Decided(Step(c, Run(c, Started(c), pre), e), pre + [e])
  {
    assert (pre + [e])[..|pre|] == pre;
    HasExitSnoc(pre, e);
    StepDecides(c, Run(c, Started(c), pre), e);
    if !HasExit(pre) { BeforeExit(c, pre); }
  }

  lemma {:induction false} FirstExitDecides(c: Config, es: seq<Event>)
    ensures Decided(Run(c, Started(c), es), es)
    decreases |es|
  {
    if es == [] {
    } else {
      var pre, e := es[..|es| - 1], es[|es| - 1];
      assert es == pre + [e];
      FirstExitDecides(c, pre);
      DecidedStep(c, pre, e);
    }
  }

  /** In every run the status events follow the path, unless a listener answers the exit handler's error event with
      the first stop() of the run; and the status shown is the last emitted. */
  lemma StatusPath(c: Config, es: seq<Event>)
    ensures var h := Run(c, Started(c), es);
            (GoodPath(h.statuses) <==> !Broken(es)) && Shows(h.statuses, h.status)
  {
    FirstExitDecides(c, es);
    PathIsDistinct(Run(c, Started(c), es));
  }

  /** Then, and only then, the run ends in stopped followed by crashed. */
  lemma ExitPathIff(c: Config, es: seq<Event>)
    ensures EndsTwice(Run(c, Started(c), es).statuses) <==> Broken(es)
  {
    FirstExitDecides(c, es);
  }

  /** crashed exactly when the first exit is of the crash kind and no stop() came before its end. */
  lemma CrashedIff(c: Config, es: seq<Event>)
    ensures Run(c, Started(c), es).status.Crashed? <==> CrashedIn(es)
  {
    FirstExitDecides(c, es);
  }

  // ---- Ready, terminal and the errors, from the events ----

  /** The first stop() came when the child was already gone. */
  predicate StoppedAtOnce(es: seq<Event>) {
    && es != []
    && var pre := es[..|es| - 1];
       StoppedAtOnce(pre) || (es[|es| - 1] == StopCalled && StopCalled !in pre && ChildGone in pre)
  }

  /** With a readyCheck: it passes, with no stop() or exit before. Without: the timer fires, with no exit and no such
      stop() before. */
  predicate ReadiesAt(c: Config, pre: seq<Event>, e: Event) {
    && !HasExit(pre)
    && if c.readyCheck then e == ProbeSettled(Passed) && StopCalled !in pre
       else e == ReadyTimer && !StoppedAtOnce(pre)
  }

  predicate ReadyIn(c: Config, es: seq<Event>) {
    es != [] && (ReadyIn(c, es[..|es| - 1]) || ReadiesAt(c, es[..|es| - 1], es[|es| - 1]))
  }

  /** An error of the child; a ready check that throws, or that fails with none passed before, with no stop() or exit
      before; and a first exit that crashes. */
  predicate ErrsAt(c: Config, pre: seq<Event>, e: Event) {
    || e == ChildError
    || (!HasExit(pre) && CrashesAt(pre, e))
    || (&& c.readyCheck && StopCalled !in pre && !HasExit(pre)
        && (e == ProbeSettled(Threw) || (e == ProbeSettled(NotReady) && ProbeSettled(Passed) !in pre)))
  }

  function ErrorsIn(c: Config, es: seq<Event>): nat {
    if es == [] then 0
    else ErrorsIn(c, es[..|es| - 1]) + if ErrsAt(c, es[..|es| - 1], es[|es| - 1]) then 1 else 0
  }

  /** With a check and no stop(), ready means that it has passed. */
  lemma {:induction false} ReadyIsPassed(c: Config, es: seq<Event>)
    requires c.readyCheck && !HasExit(es) && StopCalled !in es
    ensures ReadyIn(c, es) <==> ProbeSettled(Passed) in es
    ensures !StoppedAtOnce(es)
    decreases |es|
  {
    if es == [] {
    } else {
      var pre, e := es[..|es| - 1], es[|es| - 1];
      assert es == pre + [e];
      HasExitSnoc(pre, e);
      ReadyIsPassed(c, pre);
    }
  }

  lemma {:induction false} StopsAreCalled(es: seq<Event>)
    ensures StoppedAtOnce(es) ==> StopCalled in es
    decreases |es|
  {
    if es == [] {
    } else {
      StopsAreCalled(es[..|es| - 1]);
    }
  }

  /** What the handle's fields say of the events while the child has not exited. */
  ghost predicate Live(c: Config, h: Handle, es: seq<Event>) {
    && (h.probe.Checking? <==> c.readyCheck && StopCalled !in es)
    && (h.gone <==> ChildGone in es)
    && h.status == if StoppedAtOnce(es) then Stopped else if ReadyIn(c, es) then Ready else Starting
  }

  ghost predicate Noted(c: Config, h: Handle, es: seq<Event>) {
    && (h.exited <==> HasExit(es))
    && (!h.exited ==> Live(c, h, es))
    && (Ready in h.statuses <==> ReadyIn(c, es))
    && (Terminal(h.status) <==> HasExit(es) || StoppedAtOnce(es))
    && h.errors == ErrorsIn(c, es)
  }

  lemma ExitErrors(h: Handle, code: Option<int>, signal: bool, r: Reaction)
    requires Inv(h) && !h.exited
    ensures Exit(h, code, signal, r).errors == h.errors + if Crashes(h, code, signal, r) then 1 else 0
  {
    DrainStops(h, r);
    assert Drain(h, r).errors == h.errors;
  }

  /** One exit, said of the fields alone. */
  lemma ExitStep(c: Config, h: Handle, e: Event)
    requires Inv(h) && !h.exited && e.ChildExit?
    ensures var g := Step(c, h, e);
            && g.exited && Terminal(g.status) && (Ready in g.statuses <==> Ready in h.statuses)
            && g.errors == h.errors + if Crashes(h, e.code, e.signal, e.reaction) then 1 else 0
  {
    ExitOutcome(h, e.code, e.signal, e.reaction);
    ExitErrors(h, e.code, e.signal, e.reaction);
  }

  lemma CrashesIs(c: Config, pre: seq<Event>, e: Event)
    requires !HasExit(pre) && e.ChildExit?
    ensures Crashes(Run(c, Started(c), pre), e.code, e.signal, e.reaction) <==> ErrsAt(c, pre, e)
  {
    BeforeExit(c, pre);
  }

  lemma ExitNotes(c: Config, pre: seq<Event>, e: Event)
    requires var h := Run(c, Started(c), pre); Inv(h) && Noted(c, h, pre) && !h.exited && e.ChildExit?
    ensures Noted(c, Step(c, Run(c, Started(c), pre), e), pre + [e])
  {
    SnocIn(c, pre, e);
    CrashesIs(c, pre, e);
    ExitStep(c, Run(c, Started(c), pre), e);
    assert !ReadiesAt(c, pre, e);
  }

  lemma SnocIn(c: Config, pre: seq<Event>, e: Event)
    ensures HasExit(pre + [e]) <==> HasExit(pre) || e.ChildExit?
    ensures ReadyIn(c, pre + [e]) <==> ReadyIn(c, pre) || ReadiesAt(c, pre, e)
    ensures StoppedAtOnce(pre + [e]) <==>
              StoppedAtOnce(pre) || (e == StopCalled && StopCalled !in pre && ChildGone in pre)
    ensures ErrorsIn(c, pre + [e]) == ErrorsIn(c, pre) + if ErrsAt(c, pre, e) then 1 else 0
  {
    HasExitSnoc(pre, e);
    assert (pre + [e])[..|pre|] == pre;
  }

  /** One step while the child lives, said of the fields alone. */
  lemma LiveStep(c: Config, h: Handle, e: Event)
    requires Inv(h) && !h.exited && !e.ChildExit?
    ensures var g := Step(c, h, e);
            && !g.exited
            && (g.probe.Checking? <==> h.probe.Checking? && (e != StopCalled || h.stopping || Terminal(h.status)))
            && (g.gone <==> h.gone || e == ChildGone)
            && g.status == (if e == StopCalled && !h.stopping && !Terminal(h.status) && h.gone then Stopped
                            else if ReadiesNow(c, h, e) then Ready else h.status)
            && (Ready in g.statuses <==> Ready in h.statuses || (ReadiesNow(c, h, e)))
            && g.errors == h.errors + if ErrsNow(h, e) then 1 else 0
  {
  }

  predicate ReadiesNow(c: Config, h: Handle, e: Event) {
    h.status.Starting? && ((!c.readyCheck && e == ReadyTimer) || (h.probe.Checking? && e == ProbeSettled(Passed)))
  }

  predicate ErrsNow(h: Handle, e: Event) {
    || e == ChildError
    || (h.probe.Checking? && (e == ProbeSettled(Threw) || (e == ProbeSettled(NotReady) && h.status.Starting?)))
  }

  lemma LiveNotes(c: Config, pre: seq<Event>, e: Event)
    requires var h := Run(c, Started(c), pre); Inv(h) && Noted(c, h, pre) && !h.exited && !e.ChildExit?
    ensures Noted(c, Step(c, Run(c, Started(c), pre), e), pre + [e])
  {
    var h := Run(c, Started(c), pre);
    SnocIn(c, pre, e);
    BeforeExit(c, pre);
    StopsAreCalled(pre);
    if c.readyCheck && StopCalled !in pre { ReadyIsPassed(c, pre); }
    LiveStep(c, h, e);
  }

  lemma LateNotes(c: Config, pre: seq<Event>, e: Event)
    requires var h := Run(c, Started(c), pre); Inv(h) && Noted(c, h, pre) && h.exited
    ensures Noted(c, Step(c, Run(c, Started(c), pre), e), pre + [e])
  {
    SnocIn(c, pre, e);
    StepKeepsInv(c, Run(c, Started(c), pre), e);
  }

  lemma {:induction false} RunNotes(c: Config, es: seq<Event>)
    ensures Noted(c, Run(c, Started(c), es), es)
    decreases |es|
  {
    if es == [] {
    } else {
      var pre, e := es[..|es| - 1], es[|es| - 1];
      assert es == pre + [e];
      RunNotes(c, pre);
      RunKeepsInv(c, Started(c), pre);
      if Run(c, Started(c), pre).exited {
        LateNotes(c, pre, e);
      } else if e.ChildExit? {
        ExitNotes(c, pre, e);
      } else {
        LiveNotes(c, pre, e);
      }
    }
  }

  /** Ready is emitted exactly when the check passes, or without one the timer fires, in time. */
  lemma ReadyIff(c: Config, es: seq<Event>)
    ensures Ready in Run(c, Started(c), es).statuses <==>
              exists k :: 0 <= k < |es| && ReadiesAt(c, es[..k], es[k])
  {
    RunNotes(c, es);
    ReadyInIff(c, es);
  }

  lemma {:induction false} ReadyInIff(c: Config, es: seq<Event>)
    ensures ReadyIn(c, es) <==> exists k :: 0 <= k < |es| && ReadiesAt(c, es[..k], es[k])
    decreases |es|
  {
    if es == [] {
    } else {
      var pre := es[..|es| - 1];
      ReadyInIff(c, pre);
      assert forall k :: 0 <= k < |pre| ==> es[k] == pre[k] && es[..k] == pre[..k];
    }
  }

  /** The status after any events: crashed, stopped, ready or starting. */
  lemma StatusIs(c: Config, es: seq<Event>)
    ensures Run(c, Started(c), es).status
         == if CrashedIn(es) then Crashed
            else if HasExit(es) || StoppedAtOnce(es) then Stopped
            else if ReadyIn(c, es) then Ready
            else Starting
  {
    RunNotes(c, es);
    FirstExitDecides(c, es);
  }

  /** The error events are exactly these. */
  lemma ErrorsAre(c: Config, es: seq<Event>)
    ensures Run(c, Started(c), es).errors == ErrorsIn(c, es)
  {
    RunNotes(c, es);
  }

  // ---- The handle itself ----

  function WithLines(h: Handle, s: Stream, lines: seq<Text>): Handle {
    h.With(s, h.On(s).(lines := h.On(s).lines + lines))
  }

  lemma NoLinesYet(h: Handle, s: Stream)
    ensures forall max: nat :: WithLines(h, s, LinesOf([], max)) == h
  {
    assert h.On(s).lines + [] == h.On(s).lines;
    assert forall max: nat :: LinesOf([], max) == [];
  }

  lemma OneLineMore(h: Handle, s: Stream, raws: seq<Text>, raw: Text, max: nat)
    ensures WithLines(WithLines(h, s, LinesOf(raws, max)), s, [LineOf(raw, max)])
         == WithLines(h, s, LinesOf(raws + [raw], max))
  {
    assert LinesOf(raws + [raw], max) == LinesOf(raws, max) + [LineOf(raw, max)];
    var lines, more, last := h.On(s).lines, LinesOf(raws, max), [LineOf(raw, max)];
    assert (lines + more) + last == lines + (more + last);
  }

  class NodeProcessHandle {
    const config: Config
    var status: Status
    var stopping: bool
    var gone: bool
    var exited: bool
    var readyAbort: Probe
    var stdoutBuffer: Text
    var stderrBuffer: Text
    // What the listeners were called with, one sequence for each kind of event.
    ghost var statuses: seq<Status>
    ghost var errors: nat
    ghost var stdoutLines: seq<Text>
    ghost var stderrLines: seq<Text>

    ghost function View(): Handle reads this {
      Handle(status, stopping, gone, exited, readyAbort, statuses, errors,
             Output(stdoutBuffer, stdoutLines), Output(stderrBuffer, stderrLines))
    }

    constructor (config: Config)
      ensures View() == Started(config) && this.config == config
    {
      this.config := config;
      status, stopping, gone, exited := Starting, false, false, false;
      readyAbort := if config.readyCheck then Checking else NoCheck;
      stdoutBuffer, stderrBuffer := [], [];
      statuses, errors, stdoutLines, stderrLines := [], 0, [], [];
    }

    method Transition(s: Status)
      modifies this
      ensures View() == TransitionTo(old(View()), s)
    {
      if status == s { return; }
      status := s;
      statuses := statuses + [s];
    }

    method EmitLog(stream: Stream, line: Text)
      modifies this
      ensures View() == WithLines(old(View()), stream, [line])
    {
      if stream.Stdout? { stdoutLines := stdoutLines + [line]; } else { stderrLines := stderrLines + [line]; }
    }

    method CancelReadyCheck()
      modifies this
      ensures View() == Cancelled(old(View()))
    {
      if readyAbort.Checking? { readyAbort := Aborted; }
    }

    method RequestStop()
      modifies this
      ensures View() == Step(config, old(View()), StopCalled)
    {
      if status.Stopped? || status.Crashed? { return; }
      if stopping { return; }
      stopping := true;
      CancelReadyCheck();
      if gone { Transition(Stopped); }
    }

    method OnReadyTimer()
      modifies this
      ensures View() == Step(config, old(View()), ReadyTimer)
    {
      if !config.readyCheck && status.Starting? { Transition(Ready); }
    }

    method OnProbeSettled(result: ProbeResult)
      modifies this
      ensures View() == Step(config, old(View()), ProbeSettled(result))
    {
      if !readyAbort.Checking? { return; }
      if result.Threw? {
        errors := errors + 1;
        return;
      }
      if !status.Starting? { return; }
      if result.Passed? { Transition(Ready); } else { errors := errors + 1; }
    }

    method OnChunk(stream: Stream, chunk: Text)
      modifies this
      ensures View() == Step(config, old(View()), Chunk(stream, chunk))
    {
      var remaining := (if stream.Stdout? then stdoutBuffer else stderrBuffer) + chunk;
      remaining := EmitLines(stream, remaining);
      if stream.Stdout? { stdoutBuffer := remaining; } else { stderrBuffer := remaining; }
    }

    method EmitLines(stream: Stream, text: Text) returns (remaining: Text)
      modifies this
      ensures Pieces(Split(text, LF).frames, remaining) == Split(text, LF)
      ensures View() == WithLines(old(View()), stream, LinesOf(Split(text, LF).frames, config.maxLineBytes))
    {
      ghost var was := View();
      ghost var raws: seq<Text> := [];
      remaining := text;
      NoPieceYet(text, LF);
      NoLinesYet(was, stream);
      var lineEnd := IndexOf(remaining, LF);
      while lineEnd != -1
        invariant lineEnd == IndexOf(remaining, LF)
        invariant Split(text, LF) == Then(Pieces(raws, []), Split(remaining, LF))
        invariant View() == WithLines(was, stream, LinesOf(raws, config.maxLineBytes))
        decreases |remaining|
      {
        NextPiece(text, raws, remaining, lineEnd, LF);
        OneLineMore(was, stream, raws, remaining[..lineEnd], config.maxLineBytes);
        var line := StripCr(remaining[..lineEnd]);
        EmitLog(stream, if |line| > config.maxLineBytes then line[..config.maxLineBytes] + ELLIPSIS else line);
        raws := raws + [remaining[..lineEnd]];
        remaining := remaining[lineEnd + 1..];
        lineEnd := IndexOf(remaining, LF);
      }
      LastPiece(text, raws, remaining, LF);
    }

    /** Emit what a stream still holds, as one last line. */
    method FlushTail(stream: Stream)
      modifies this
      ensures View() == old(View()).With(stream, Flushed(old(View()).On(stream)))
    {
      var tail := if stream.Stdout? then stdoutBuffer else stderrBuffer;
      if tail == [] { return; }
      EmitLog(stream, StripCr(tail));
      if stream.Stdout? { stdoutBuffer := []; } else { stderrBuffer := []; }
    }

    /** Flush both streams, then cancel the check. */
    method DrainTails(reaction: Reaction)
      modifies this
      ensures View() == Drain(old(View()), reaction)
    {
      gone, exited := true, true;
      var tails := stdoutBuffer != [] || stderrBuffer != [];
      FlushTail(Stdout);
      FlushTail(Stderr);
      if reaction.stopOnTail && tails { RequestStop(); }
      CancelReadyCheck();
    }

    /** The exit handler's error event, and what its listener does. */
    method EmitExitError(reaction: Reaction)
      modifies this
      ensures var d := old(View()).(errors := old(View()).errors + 1);
              View() == if reaction.stopOnError then Stop(d) else d
    {
      errors := errors + 1;
      if reaction.stopOnError { RequestStop(); }
    }

    method EmitCrash(reaction: Reaction)
      modifies this
      ensures var d := old(View()).(errors := old(View()).errors + 1);
              View() == TransitionTo(if reaction.stopOnError then Stop(d) else d, Crashed)
    {
      EmitExitError(reaction);
      Transition(Crashed);
    }

    method OnExit(code: Option<int>, signal: bool, reaction: Reaction)
      requires !exited
      modifies this
      ensures View() == Step(config, old(View()), ChildExit(code, signal, reaction))
    {
      DrainTails(reaction);
      Conclude(code, signal, reaction);
    }

    /** Stopped or crashed. */
    method Conclude(code: Option<int>, signal: bool, reaction: Reaction)
      modifies this
      ensures View() == Concluded(old(View()), code, signal, reaction)
    {
      if stopping {
        Transition(Stopped);
        return;
      }
      if signal {
        EmitCrash(reaction);
        return;
      }
      if code == Some(0) {
        Transition(Stopped);
      } else {
        EmitCrash(reaction);
      }
    }
  }
}
