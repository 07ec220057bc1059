/** The supervisor's bounded buffer of a handle's events, with listeners that make the handle emit more. */
module RuntimeSupervisor {
  import opened Options
  import opened NodeProcess

  datatype RuntimeEvent =
    | StatusEvent(status: Status, at: int)
    | LogEvent(stream: Stream, line: Text, at: int)
    | ErrorEvent(message: string, at: int)

  datatype Record = Record(sequence: nat, event: RuntimeEvent)

  /** One call of the handle's emit. heard: the supervisor is subscribed when emit takes its snapshot of the listeners,
      so that a close() later in the same call does not matter. Before, during and after the event reaches the
      supervisor, listeners may cause more: those subscribed earlier, the supervisor's onEvent, those subscribed
      later. */
  datatype Emission = Emission(event: RuntimeEvent, heard: bool,
                               before: seq<Emission>, during: seq<Emission>, after: seq<Emission>)

  /** The events in the order in which emit was called, which is the order in which the status was set. */
  function Emitted(es: seq<Emission>): seq<RuntimeEvent> {
    if es == [] then []
    else [es[0].event] + Emitted(es[0].before) + Emitted(es[0].during) + Emitted(es[0].after) + Emitted(es[1..])
  }

  function HeardEvent(e: Emission): seq<RuntimeEvent> { if e.heard then [e.event] else [] }

  /** Those emitted while the supervisor was subscribed. */
  function Heard(es: seq<Emission>): seq<RuntimeEvent> {
    if es == [] then []
    else HeardEvent(es[0]) + Heard(es[0].before) + Heard(es[0].during) + Heard(es[0].after) + Heard(es[1..])
  }

  /** The events in the order in which the supervisor records them. */
  function Recorded(es: seq<Emission>): seq<RuntimeEvent> {
    if es == [] then []
    else Recorded(es[0].before) + HeardEvent(es[0]) + Recorded(es[0].during) + Recorded(es[0].after) + Recorded(es[1..])
  }

  predicate AllHeard(es: seq<Emission>) {
    es != [] ==>
      && es[0].heard
      && AllHeard(es[0].before) && AllHeard(es[0].during) && AllHeard(es[0].after) && AllHeard(es[1..])
  }

  /** The last status among the events. */
  function LastStatus(evs: seq<RuntimeEvent>): Option<Status>
    decreases |evs|
  {
    if evs == [] then None
    else if evs[|evs| - 1].StatusEvent? then Some(evs[|evs| - 1].status)
    else LastStatus(evs[..|evs| - 1])
  }

  function StatusAfter(s: Status, evs: seq<RuntimeEvent>): Status {
    if LastStatus(evs).Some? then LastStatus(evs).value else s
  }

  // ---- The buffer is a suffix of the history ----

  function Numbered(history: seq<RuntimeEvent>): (r: seq<Record>)
    ensures |r| == |history| && forall k :: 0 <= k < |r| ==> r[k] == Record(k + 1, history[k])
  {
    if history == [] then [] else Numbered(history[..|history| - 1]) + [Record(|history|, history[|history| - 1])]
  }

  function Recent(history: seq<RuntimeEvent>, size: nat): seq<Record> {
    if |history| <= size then Numbered(history) else Numbered(history)[|history| - size..]
  }

  class RuntimeSupervisor {
    const bufferSize: int
    var buffer: seq<Record>
    var sequence: nat
    var lastEventAt: Option<int>
    /** Every event recorded so far. */
    ghost var history: seq<RuntimeEvent>

    ghost predicate Valid()
      reads this
    {
      && bufferSize >= 1 && sequence == |history|
      && buffer == Recent(history, bufferSize)
      && lastEventAt == if history == [] then None else Some(history[|history| - 1].at)
    }

    constructor (size: Option<int>)
      ensures Valid() && history == []
      ensures bufferSize == if size.None? then 200 else if size.value < 1 then 1 else size.value
    {
      bufferSize := if size.None? then 200 else if size.value < 1 then 1 else size.value;
      buffer, sequence, lastEventAt := [], 0, None;
      history := [];
    }

    method Observe(event: RuntimeEvent)
      requires Valid()
      modifies this
      ensures Valid() && history == old(history) + [event]
    {
      sequence := sequence + 1;
      history := history + [event];
      assert history[..|history| - 1] == old(history);
      buffer := buffer + [Record(sequence, event)];
      if |buffer| > bufferSize {
        buffer := buffer[1..];
      }
      lastEventAt := Some(event.at);
    }

    /** snapshot(): when the last event was recorded, and the buffer. */
    method Snapshot() returns (last: Option<int>, recent: seq<Record>)
      requires Valid()
      ensures last == if history == [] then None else Some(history[|history| - 1].at)
      ensures |recent| == (if |history| < bufferSize then |history| else bufferSize)
      ensures forall k :: 0 <= k < |recent| ==>
                recent[k] == Record(|history| - |recent| + k + 1, history[|history| - |recent| + k])
    {
      last, recent := lastEventAt, buffer;
    }
  }

  class RuntimeHandle {
    var status: Status

    constructor ()
      ensures status == Starting
    {
      status := Starting;
    }

    /** Emits what the listeners cause, to the supervisor among them. */
    method EmitAll(es: seq<Emission>, supervisor: RuntimeSupervisor)
      requires supervisor.Valid()
      modifies this, supervisor
      ensures supervisor.Valid() && supervisor.history == old(supervisor.history) + Recorded(es)
      ensures status == StatusAfter(old(status), Emitted(es))
      decreases es
    {
      if es == [] {
        assert old(supervisor.history) + [] == old(supervisor.history);
        return;
      }
      var e := es[0];
      ghost var h, s := supervisor.history, status;
      if e.event.StatusEvent? { status := e.event.status; }
      EmitAll(e.before, supervisor);
      if e.heard { supervisor.Observe(e.event); }
      EmitAll(e.during, supervisor);
      EmitAll(e.after, supervisor);
      EmitAll(es[1..], supervisor);
      EmittedStatus(s, e.event, Emitted(e.before), Emitted(e.during), Emitted(e.after), Emitted(es[1..]));
      Appended(h, Recorded(e.before), HeardEvent(e), Recorded(e.during), Recorded(e.after), Recorded(es[1..]));
    }
  }

  lemma Appended(h: seq<RuntimeEvent>, a: seq<RuntimeEvent>, x: seq<RuntimeEvent>, b: seq<RuntimeEvent>,
                 c: seq<RuntimeEvent>, d: seq<RuntimeEvent>)
    ensures h + a + x + b + c + d == h + (a + x + b + c + d)
    ensures x == [] ==> h + a + x == h + a
  {
  }

  lemma EmittedStatus(s: Status, x: RuntimeEvent, a: seq<RuntimeEvent>, b: seq<RuntimeEvent>,
                      c: seq<RuntimeEvent>, d: seq<RuntimeEvent>)
    ensures StatusAfter(s, [x] + a + b + c + d)
         == StatusAfter(StatusAfter(StatusAfter(StatusAfter(if x.StatusEvent? then x.status else s, a), b), c), d)
  {
    LastStatusAppend([x] + a + b + c, d);
    LastStatusAppend([x] + a + b, c);
    LastStatusAppend([x] + a, b);
    LastStatusAppend([x], a);
  }

  lemma {:induction false} LastStatusAppend(a: seq<RuntimeEvent>, b: seq<RuntimeEvent>)
    ensures LastStatus(a + b) == if LastStatus(b).Some? then LastStatus(b) else LastStatus(a)
    decreases |b|
  {
    if b == [] {
      assert a + b == a;
    } else {
      assert (a + b)[..|a + b| - 1] == a + b[..|b| - 1];
      LastStatusAppend(a, b[..|b| - 1]);
    }
  }

  // ---- The order in which events arrive ----

  /** The supervisor misses nothing that is emitted while it is subscribed, and sees nothing twice. */
  lemma {:induction false} RecordedIsHeard(es: seq<Emission>)
    ensures multiset(Recorded(es)) == multiset(Heard(es))
  {
    if es == [] {
    } else {
      RecordedIsHeard(es[0].before);
      RecordedIsHeard(es[0].during);
      RecordedIsHeard(es[0].after);
      RecordedIsHeard(es[1..]);
    }
  }

  lemma {:induction false} AllHeardIsEmitted(es: seq<Emission>)
    requires AllHeard(es)
    ensures Heard(es) == Emitted(es)
  {
    if es == [] {
    } else {
      AllHeardIsEmitted(es[0].before);
      AllHeardIsEmitted(es[0].during);
      AllHeardIsEmitted(es[0].after);
      AllHeardIsEmitted(es[1..]);
    }
  }

  predicate HasStatus(es: seq<Emission>) { LastStatus(Emitted(es)).Some? }

  /** The last status event was overtaken: a listener subscribed earlier answered it with another status event. */
  predicate Overtaken(es: seq<Emission>) {
    if es == [] then false
    else if HasStatus(es[1..]) then Overtaken(es[1..])
    else if HasStatus(es[0].after) then Overtaken(es[0].after)
    else if HasStatus(es[0].during) then Overtaken(es[0].during)
    else if es[0].event.StatusEvent? then HasStatus(es[0].before)
    else Overtaken(es[0].before)
  }

  /** The last status in each order, from the four parts of the first emission and the rest. */
  lemma LastOfParts(es: seq<Emission>)
    requires es != []
    ensures var e := es[0];
            LastStatus(Emitted(es)) ==
              if HasStatus(es[1..]) then LastStatus(Emitted(es[1..]))
              else if HasStatus(e.after) then LastStatus(Emitted(e.after))
              else if HasStatus(e.during) then LastStatus(Emitted(e.during))
              else if HasStatus(e.before) then LastStatus(Emitted(e.before))
              else if e.event.StatusEvent? then Some(e.event.status) else None
  {
    var e := es[0];
    LastStatusAppend([e.event] + Emitted(e.before) + Emitted(e.during) + Emitted(e.after), Emitted(es[1..]));
    LastStatusAppend([e.event] + Emitted(e.before) + Emitted(e.during), Emitted(e.after));
    LastStatusAppend([e.event] + Emitted(e.before), Emitted(e.during));
    LastStatusAppend([e.event], Emitted(e.before));
  }

  lemma LastOfRecorded(es: seq<Emission>)
    requires es != [] && es[0].heard
    ensures var e := es[0];
            LastStatus(Recorded(es)) ==
              if LastStatus(Recorded(es[1..])).Some? then LastStatus(Recorded(es[1..]))
              else if LastStatus(Recorded(e.after)).Some? then LastStatus(Recorded(e.after))
              else if LastStatus(Recorded(e.during)).Some? then LastStatus(Recorded(e.during))
              else if e.event.StatusEvent? then Some(e.event.status)
              else LastStatus(Recorded(e.before))
  {
    var e := es[0];
    LastStatusAppend(Recorded(e.before) + [e.event] + Recorded(e.during) + Recorded(e.after), Recorded(es[1..]));
    LastStatusAppend(Recorded(e.before) + [e.event] + Recorded(e.during), Recorded(e.after));
    LastStatusAppend(Recorded(e.before) + [e.event], Recorded(e.during));
    LastStatusAppend(Recorded(e.before), [e.event]);
  }

  lemma {:induction false} RecordedHasStatus(es: seq<Emission>)
    requires AllHeard(es)
    ensures LastStatus(Recorded(es)).Some? <==> HasStatus(es)
  {
    if es == [] {
    } else {
      LastOfParts(es);
      LastOfRecorded(es);
      RecordedHasStatus(es[1..]);
      RecordedHasStatus(es[0].after);
      RecordedHasStatus(es[0].during);
      RecordedHasStatus(es[0].before);
    }
  }

  /** Unless the last status was overtaken, the recorded history ends in the status that was set last. */
  lemma {:induction false} LastStatusAgrees(es: seq<Emission>)
    requires AllHeard(es) && !Overtaken(es)
    ensures LastStatus(Recorded(es)) == LastStatus(Emitted(es))
  {
    if es == [] {
    } else {
      var e := es[0];
      LastOfParts(es);
      LastOfRecorded(es);
      RecordedHasStatus(es[1..]);
      RecordedHasStatus(e.after);
      RecordedHasStatus(e.during);
      RecordedHasStatus(e.before);
      if HasStatus(es[1..]) { LastStatusAgrees(es[1..]); }
      else if HasStatus(e.after) { LastStatusAgrees(e.after); }
      else if HasStatus(e.during) { LastStatusAgrees(e.during); }
      else if !e.event.StatusEvent? { LastStatusAgrees(e.before); }
    }
  }

  /** No two status events carry the same status, as transitionTo and the order of statuses ensure. */
  ghost predicate DistinctStatuses(evs: seq<RuntimeEvent>) {
    forall i, j :: 0 <= i < j < |evs| && evs[i].StatusEvent? && evs[j].StatusEvent? ==> evs[i].status != evs[j].status
  }

  lemma {:induction false} LastStatusAt(evs: seq<RuntimeEvent>)
    requires LastStatus(evs).Some?
    ensures exists k :: 0 <= k < |evs| && evs[k].StatusEvent? && evs[k].status == LastStatus(evs).value
    decreases |evs|
  {
    if !evs[|evs| - 1].StatusEvent? { LastStatusAt(evs[..|evs| - 1]); }
  }

  lemma DistinctHalves(p: seq<RuntimeEvent>, q: seq<RuntimeEvent>)
    requires DistinctStatuses(p + q)
    ensures DistinctStatuses(p) && DistinctStatuses(q)
    ensures LastStatus(q).Some? ==> forall i :: 0 <= i < |p| && p[i].StatusEvent? ==> p[i].status != LastStatus(q).value
  {
    forall i, j | 0 <= i < j < |p| && p[i].StatusEvent? && p[j].StatusEvent? ensures p[i].status != p[j].status {
      assert (p + q)[i] == p[i] && (p + q)[j] == p[j];
    }
    forall i, j | 0 <= i < j < |q| && q[i].StatusEvent? && q[j].StatusEvent? ensures q[i].status != q[j].status {
      assert (p + q)[|p| + i] == q[i] && (p + q)[|p| + j] == q[j];
    }
    if LastStatus(q).Some? {
      LastStatusAt(q);
      var k :| 0 <= k < |q| && q[k].StatusEvent? && q[k].status == LastStatus(q).value;
      assert (p + q)[|p| + k] == q[k];
      assert forall i :: 0 <= i < |p| ==> (p + q)[i] == p[i];
    }
  }

  lemma DistinctParts(x: RuntimeEvent, a: seq<RuntimeEvent>, b: seq<RuntimeEvent>,
                      c: seq<RuntimeEvent>, d: seq<RuntimeEvent>)
    requires DistinctStatuses([x] + a + b + c + d)
    ensures DistinctStatuses(a) && DistinctStatuses(b) && DistinctStatuses(c) && DistinctStatuses(d)
    ensures x.StatusEvent? ==> LastStatus(a) != Some(x.status)
  {
    DistinctHalves([x] + a + b + c, d);
    DistinctHalves([x] + a + b, c);
    DistinctHalves([x] + a, b);
    DistinctHalves([x], a);
    assert [x][0] == x;
  }

  /** And when each status is emitted at most once, only then. */
  lemma {:induction false} LastStatusIff(es: seq<Emission>)
    requires AllHeard(es) && DistinctStatuses(Emitted(es))
    ensures LastStatus(Recorded(es)) == LastStatus(Emitted(es)) <==> !Overtaken(es)
  {
    if es == [] {
    } else {
      var e := es[0];
      LastOfParts(es);
      LastOfRecorded(es);
      DistinctParts(e.event, Emitted(e.before), Emitted(e.during), Emitted(e.after), Emitted(es[1..]));
      RecordedHasStatus(es[1..]);
      RecordedHasStatus(e.after);
      RecordedHasStatus(e.during);
      RecordedHasStatus(e.before);
      if HasStatus(es[1..]) { LastStatusIff(es[1..]); }
      else if HasStatus(e.after) { LastStatusIff(e.after); }
      else if HasStatus(e.during) { LastStatusIff(e.during); }
      else if !e.event.StatusEvent? { LastStatusIff(e.before); }
    }
  }

  /** Nothing is caused ahead of the supervisor, as when it subscribed first; its own onEvent may cause anything. */
  predicate FirstListener(es: seq<Emission>) {
    es != [] ==>
      && es[0].before == []
      && FirstListener(es[0].during) && FirstListener(es[0].after) && FirstListener(es[1..])
  }

  lemma {:induction false} FirstListenerIsInOrder(es: seq<Emission>)
    requires AllHeard(es) && FirstListener(es)
    ensures Recorded(es) == Emitted(es)
  {
    if es == [] {
    } else {
      FirstListenerIsInOrder(es[0].during);
      FirstListenerIsInOrder(es[0].after);
      FirstListenerIsInOrder(es[1..]);
      NothingBefore(es[0].event, Recorded(es[0].during), Recorded(es[0].after), Recorded(es[1..]));
    }
  }

  lemma NothingBefore(x: RuntimeEvent, a: seq<RuntimeEvent>, b: seq<RuntimeEvent>, c: seq<RuntimeEvent>)
    ensures [] + [x] + a + b + c == [x] + [] + a + b + c
  {
    assert [] + [x] == [x] + [];
  }

  // ---- What a handle emits ----

  function StatusesOf(evs: seq<RuntimeEvent>): seq<Status> {
    if evs == [] then []
    else StatusesOf(evs[..|evs| - 1]) + if evs[|evs| - 1].StatusEvent? then [evs[|evs| - 1].status] else []
  }

  /** The emissions carry the status events of a run of the process handle. */
  ghost predicate ComesFrom(es: seq<Emission>, h: Handle) { StatusesOf(Emitted(es)) == h.statuses }

  lemma {:induction false} StatusIsAmong(evs: seq<RuntimeEvent>, i: nat)
    requires i < |evs| && evs[i].StatusEvent?
    ensures evs[i].status in StatusesOf(evs)
    decreases |evs|
  {
    if i < |evs| - 1 { StatusIsAmong(evs[..|evs| - 1], i); }
  }

  lemma {:induction false} DistinctFromStatuses(evs: seq<RuntimeEvent>)
    requires Distinct(StatusesOf(evs))
    ensures DistinctStatuses(evs)
    ensures LastStatus(evs) == if StatusesOf(evs) == [] then None else Some(StatusesOf(evs)[|StatusesOf(evs)| - 1])
    decreases |evs|
  {
    if evs == [] {
    } else {
      var pre, last := evs[..|evs| - 1], evs[|evs| - 1];
      var ss := StatusesOf(pre);
      assert StatusesOf(evs)[..|ss|] == ss;
      assert forall i, j :: 0 <= i < j < |ss| ==> ss[i] == StatusesOf(evs)[i] && ss[j] == StatusesOf(evs)[j];
      DistinctFromStatuses(pre);
      forall i | 0 <= i < |pre| && pre[i].StatusEvent? && last.StatusEvent? ensures pre[i].status != last.status {
        StatusIsAmong(pre, i);
        var k :| 0 <= k < |ss| && ss[k] == pre[i].status;
        assert StatusesOf(evs)[k] == ss[k] && StatusesOf(evs)[|ss|] == last.status;
      }
    }
  }

  /** For every run of the process handle: the supervisor's history ends in the handle's status unless the last status
      was overtaken, and then it does not. */
  lemma HandleRunIff(c: Config, run: seq<Event>, es: seq<Emission>)
    requires AllHeard(es) && ComesFrom(es, Run(c, Started(c), run))
    ensures StatusAfter(Starting, Recorded(es)) == Run(c, Started(c), run).status <==> !Overtaken(es)
  {
    var h := Run(c, Started(c), run);
    StatusesAreDistinct(c, run);
    DistinctFromStatuses(Emitted(es));
    LastStatusIff(es);
    RecordedHasStatus(es);
    if h.statuses == [] { NotOvertaken(es); }
  }

  lemma {:induction false} NotOvertaken(es: seq<Emission>)
    requires !HasStatus(es)
    ensures !Overtaken(es)
  {
    if es == [] {
    } else {
      LastOfParts(es);
      NotOvertaken(es[0].before);
    }
  }

  /** A listener ahead of the supervisor that stops the run when it hears "ready", with the child already gone, makes
      the supervisor record the wrong last status. */
  lemma EarlierListenerOvertakes(max: nat)
    ensures var c := Config(false, max);
            var h := Run(c, Started(c), [ChildGone, ReadyTimer, StopCalled]);
            && h.status == Stopped
            && exists es :: AllHeard(es) && ComesFrom(es, h) && LastStatus(Recorded(es)) == Some(Ready)
  {
    var c := Config(false, max);
    var stop := Emission(StatusEvent(Stopped, 1), true, [], [], []);
    var es := [Emission(StatusEvent(Ready, 0), true, [stop], [], [])];
    assert es[1..] == [] && [stop][1..] == [];
    assert AllHeard([stop]) && AllHeard(es);
    LastOfRecorded(es);
    assert Emitted([stop]) == [StatusEvent(Stopped, 1)];
    assert Emitted(es) == [StatusEvent(Ready, 0), StatusEvent(Stopped, 1)];
    StatusesOfTwo(Emitted(es));
    GoneThenStopped(c);
  }

  lemma StatusesOfTwo(evs: seq<RuntimeEvent>)
    requires |evs| == 2 && evs[0].StatusEvent? && evs[1].StatusEvent?
    ensures StatusesOf(evs) == [evs[0].status, evs[1].status]
  {
    assert evs[..1] == [evs[0]] && [evs[0]][..0] == [];
    assert StatusesOf([evs[0]]) == [evs[0].status];
  }

  /** Attached before the first status event, the supervisor's whole history ends in the handle's status. */
  method Supervise(size: Option<int>, handle: RuntimeHandle, es: seq<Emission>) returns (supervisor: RuntimeSupervisor)
    requires handle.status == Starting
    modifies handle
    ensures fresh(supervisor) && supervisor.Valid() && supervisor.history == Recorded(es)
    ensures AllHeard(es) && !Overtaken(es) ==> handle.status == StatusAfter(Starting, supervisor.history)
  {
    supervisor := new RuntimeSupervisor(size);
    handle.EmitAll(es, supervisor);
    assert [] + Recorded(es) == Recorded(es);
    if AllHeard(es) && !Overtaken(es) { LastStatusAgrees(es); }
  }
}
