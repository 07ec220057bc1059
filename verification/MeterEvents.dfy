/** What each event does to the request meter, field by field, and what a probe's gate and a watcher owe to the events
    so far. */
module MeterEvents {
  import opened Options
  import opened RequestMeter

  // ---- What one event records in a probe ----

  /** The socket wrote the request that this probe measures. */
  predicate Writes(m: Meter, e: Event, k: nat) { e.Written? && e.tag in m.tags && m.tags[e.tag] == k }

  predicate InPhase(m: Meter, i: nat, phase: Phase, k: nat) {
    i < |m.posts| && m.posts[i].phase == phase && m.posts[i].probe == k
  }

  /** A chunk of the body that this probe measures. */
  predicate Delivers(m: Meter, e: Event, k: nat) { e.Chunk? && InPhase(m, e.post, Streaming, k) }

  predicate Responds(m: Meter, e: Event, k: nat) { e.Headers? && InPhase(m, e.post, Sent, k) }

  /** The transfer is over: its body, or the response without one, or the fetch that failed. */
  predicate Ends(m: Meter, e: Event, k: nat) {
    || (e.BodyOver? && InPhase(m, e.post, Streaming, k))
    || (e.Headers? && !e.body && InPhase(m, e.post, Sent, k))
    || (e.FetchThrew? && InPhase(m, e.post, Sent, k))
  }

  /** The send and the write. */
  ghost predicate WriteRecorded(m: Meter, e: Event, k: nat, p: Probe, q: Probe) {
    && q.gate == p.gate && q.sentAt == p.sentAt
    && q.writtenAt == (if p.writtenAt.None? && Writes(m, e, k) then Some(m.now) else p.writtenAt)
    && q.connectedAt == if p.writtenAt.None? && Writes(m, e, k)
                           && e.connected.Some? && e.connected.value >= p.sentAt then e.connected else p.connectedAt
  }

  ghost predicate BytesRecorded(m: Meter, e: Event, k: nat, p: Probe, q: Probe) {
    && q.bytes == p.bytes + (if Delivers(m, e, k) then e.bytes else 0)
    && q.lastByteAt == (if Delivers(m, e, k) then Some(m.now) else p.lastByteAt)
    && q.firstByteAt == if Delivers(m, e, k) && p.firstByteAt.None? then Some(m.now) else p.firstByteAt
  }

  ghost predicate ResponseRecorded(m: Meter, e: Event, k: nat, p: Probe, q: Probe) {
    && q.headersAt == (if Responds(m, e, k) then Some(m.now) else p.headersAt)
    && q.response == (if Responds(m, e, k) then Some(e.response) else p.response)
    && |q.answers| == |p.answers| + if e == AskHeaders(k) then 1 else 0
  }

  ghost predicate EndRecorded(m: Meter, e: Event, k: nat, p: Probe, q: Probe) {
    if Ends(m, e, k) && p.endedAt.None? then
      && q.endedAt == Some(m.now)
      && (q.failed <==> e.FetchThrew? || (e.BodyOver? && e.failed))
      && (q.cancelled <==> e.BodyOver? && e.cancelled)
    else q.endedAt == p.endedAt && q.failed == p.failed && q.cancelled == p.cancelled
  }

  ghost predicate Recorded(m: Meter, e: Event, k: nat, p: Probe, q: Probe) {
    && WriteRecorded(m, e, k, p, q) && BytesRecorded(m, e, k, p, q)
    && ResponseRecorded(m, e, k, p, q) && EndRecorded(m, e, k, p, q)
  }

  lemma DoneRecords(m: Meter, i: nat, failed: bool, cancelled: bool, k: nat)
    requires Inv(m) && i < |m.posts| && m.posts[i].probe < |m.probes| && k < |m.probes|
    ensures var q := Done(m, i, failed, cancelled).probes[k]; var p := m.probes[k];
            if m.posts[i].probe == k && p.endedAt.None?
            then q == p.(endedAt := Some(m.now), failed := failed, cancelled := cancelled, timer := None,
                         waiting := [], answers := q.answers) && |q.answers| == |p.answers|
            else q == p
  {
    assert PostOk(m, i);
  }

  lemma OpenedRecords(m: Meter, i: nat, phase: Phase, response: Response, k: nat)
    requires At(m, i, Sent) && k < |m.probes|
    ensures var q := Opened(m, i, phase, response).probes[k]; var p := m.probes[k];
            if m.posts[i].probe == k
            then q == p.(headersAt := Some(m.now), response := Some(response), waiting := [], answers := q.answers)
                 && |q.answers| == |p.answers|
            else q == p
  {
  }

  lemma HeadersRecord(m: Meter, i: nat, body: bool, response: Response, k: nat)
    requires Inv(m) && k < |m.probes|
    ensures Recorded(m, Headers(i, body, response), k, m.probes[k], Step(m, Headers(i, body, response)).probes[k])
  {
    if At(m, i, Sent) {
      var g := Opened(m, i, if body then Streaming else Bodyless, response);
      OpenedRecords(m, i, if body then Streaming else Bodyless, response, k);
      HeadersKeepInv(m, i, if body then Streaming else Bodyless, response);
      if !body { DoneRecords(g, i, false, false, k); }
    }
  }

  lemma ThrowRecords(m: Meter, i: nat, k: nat)
    requires Inv(m) && k < |m.probes|
    ensures Recorded(m, FetchThrew(i), k, m.probes[k], Step(m, FetchThrew(i)).probes[k])
  {
    if At(m, i, Sent) {
      ThrowKeepsInv(m, i);
      DoneRecords(m.(posts := m.posts[i := m.posts[i].(phase := FetchFailed)]), i, true, false, k);
    }
  }

  lemma OverRecords(m: Meter, i: nat, failed: bool, cancelled: bool, k: nat)
    requires Inv(m) && k < |m.probes|
    ensures var e := BodyOver(i, failed, cancelled);
            Recorded(m, e, k, m.probes[k], Step(m, e).probes[k])
  {
    if At(m, i, Streaming) { DoneRecords(m, i, failed, cancelled, k); }
  }

  predicate Notes(e: Event) { e.Written? || e.Chunk? || e.GateFires? || e.AskHeaders? || e.Finish? }

  lemma NotingIs(m: Meter, e: Event, k: nat)
    requires Notes(e) && k < |m.probes|
    ensures k < |Step(m, e).probes|
    ensures Step(m, e).probes[k] == if Noter(m, e) == k then Noted(m.probes[k], e, m.now) else m.probes[k]
    ensures Noter(m, e) == k <==>
              Writes(m, e, k) || Delivers(m, e, k) || e in {GateFires(k), AskHeaders(k), Finish(k)}
  {
  }

  lemma NotedKeeps(p: Probe, e: Event, now: int)
    requires Notes(e)
    ensures var q := Noted(p, e, now);
            && q.gate == p.gate && q.sentAt == p.sentAt && q.headersAt == p.headersAt && q.response == p.response
            && q.endedAt == p.endedAt && q.failed == p.failed && q.cancelled == p.cancelled
            && (!e.Written? ==> q.writtenAt == p.writtenAt && q.connectedAt == p.connectedAt)
            && (!e.Chunk? ==> q.bytes == p.bytes && q.firstByteAt == p.firstByteAt && q.lastByteAt == p.lastByteAt)
            && |q.answers| == |p.answers| + if e.AskHeaders? then 1 else 0
  {
  }

  lemma NotedWrite(p: Probe, e: Event, now: int)
    requires e.Written? || e.Chunk?
    ensures var q := Noted(p, e, now);
            && (e.Written? ==> q.writtenAt == (if p.writtenAt.None? then Some(now) else p.writtenAt))
            && (e.Written? ==> q.connectedAt == if p.writtenAt.None? && e.connected.Some?
                                                   && e.connected.value >= p.sentAt then e.connected else p.connectedAt)
            && (e.Chunk? ==> q.bytes == p.bytes + e.bytes && q.lastByteAt == Some(now)
                             && q.firstByteAt == if p.firstByteAt.None? then Some(now) else p.firstByteAt)
  {
  }

  lemma NotingRecords(m: Meter, e: Event, k: nat)
    requires Notes(e) && k < |m.probes|
    ensures k < |Step(m, e).probes| && Recorded(m, e, k, m.probes[k], Step(m, e).probes[k])
  {
    NotingIs(m, e, k);
    NotedKeeps(m.probes[k], e, m.now);
    if e.Written? || e.Chunk? { NotedWrite(m.probes[k], e, m.now); }
  }

  /** In every run, a probe records of each event the write, the bytes, the response and the end that are its own, each
      of them once where it can come once, and nothing of any other event. */
  lemma EventsAreRecorded(now: int, es: seq<Event>, e: Event, k: nat)
    requires k < |Run(NewMeter(now), es).probes|
    ensures var m := Run(NewMeter(now), es);
            var g := Run(NewMeter(now), es + [e]);
            k < |g.probes| && Recorded(m, e, k, m.probes[k], g.probes[k])
  {
    RunKeepsInv(now, es);
    RunSnoc(now, es, e);
    StepRecords(Run(NewMeter(now), es), e, k);
  }

  lemma RunSnoc(now: int, es: seq<Event>, e: Event)
    ensures Run(NewMeter(now), es + [e]) == Step(Run(NewMeter(now), es), e)
  {
    assert (es + [e])[..|es|] == es;
  }

  lemma StepRecords(m: Meter, e: Event, k: nat)
    requires Inv(m) && k < |m.probes|
    ensures k < |Step(m, e).probes| && Recorded(m, e, k, m.probes[k], Step(m, e).probes[k])
  {
    if Notes(e) {
      NotingRecords(m, e, k);
    } else if e.Headers? {
      HeadersRecord(m, e.post, e.body, e.response, k);
    } else if e.FetchThrew? {
      ThrowRecords(m, e.post, k);
    } else if e.BodyOver? {
      OverRecords(m, e.post, e.failed, e.cancelled, k);
    } else {
      OthersKeepProbes(m, e);
    }
  }

  /** Events that concern no probe yet. */
  lemma OthersKeepProbes(m: Meter, e: Event)
    requires !Notes(e) && !e.Headers? && !e.FetchThrew? && !e.BodyOver?
    ensures m.probes <= Step(m, e).probes
  {
  }

  // ---- What a request takes ----

  ghost predicate Takes(m: Meter, rpc: string, toolName: Option<string>, g: Meter) {
    && |g.posts| == |m.posts| + 1 && g.posts[..|m.posts|] == m.posts
    && var post := g.posts[|m.posts|];
       && post.rpc == rpc && post.toolName == toolName && post.phase.Sent?
       && |g.posts| in g.tags && g.tags[|g.posts|] == post.probe && post.probe in g.inFlight
       && if rpc == "resources/read" && m.armed.Some?
          then post.probe == m.armed.value && g.probes == m.probes
          else
            && post.probe == |m.probes| && |g.probes| == |m.probes| + 1 && m.probes <= g.probes
            && g.probes[|m.probes|].gate == None && g.probes[|m.probes|].sentAt == m.now
            && g.probes[|m.probes|].writtenAt == None
  }

  lemma SendStep(m: Meter, rpc: string, toolName: Option<string>)
    ensures Takes(m, rpc, toolName, Step(m, Send(rpc, toolName)))
  {
  }

  /** In every run a POST takes the armed probe if it reads a resource and one is armed, else a new passive one; its
      tag leads to that probe. */
  lemma SendTakes(now: int, es: seq<Event>, rpc: string, toolName: Option<string>)
    ensures Takes(Run(NewMeter(now), es), rpc, toolName, Run(NewMeter(now), es + [Send(rpc, toolName)]))
  {
    RunSnoc(now, es, Send(rpc, toolName));
    SendStep(Run(NewMeter(now), es), rpc, toolName);
  }

  /** The armed probe is the last one armed, until it is disarmed or taken. */
  lemma ArmedMoves(now: int, es: seq<Event>, e: Event)
    ensures var m := Run(NewMeter(now), es);
            var g := Run(NewMeter(now), es + [e]);
            && g.armed == (match e
                           case Arm(_) => Some(|m.probes|)
                           case Disarm(k) => if m.armed == Some(k) then None else m.armed
                           case Send(rpc, _) => if rpc == "resources/read" then None else m.armed
                           case _ => m.armed)
            && (e.Arm? ==> |g.probes| == |m.probes| + 1 && g.probes[|m.probes|].gate == Some(e.gate)
                           && g.probes[|m.probes|].sentAt == m.now)
  {
    RunSnoc(now, es, e);
  }

  // ---- The watchers ----

  predicate AsksFor(w: Watch, rpc: string, toolName: Option<string>) { w.rpc == rpc && w.toolName in {None, toolName} }

  /** at is the place of the first waiting watcher that asks for the POST, or the number of watchers if none does. */
  ghost predicate IsFirst(m: Meter, rpc: string, toolName: Option<string>, at: nat) {
    && at <= |m.watchers|
    && (at < |m.watchers| ==> m.watchers[at] < |m.watches| && AsksFor(m.watches[m.watchers[at]], rpc, toolName))
    && forall k :: 0 <= k < at && m.watchers[k] < |m.watches| ==> !AsksFor(m.watches[m.watchers[k]], rpc, toolName)
  }

  lemma SendNotices(m: Meter, rpc: string, toolName: Option<string>)
    ensures var g := Step(m, Send(rpc, toolName));
            var n := Noticed(m, |m.posts|, rpc, toolName);
            g.watchers == n.watchers && g.matched == n.matched && g.watches == m.watches
  {
    ClaimKeepsWatchers(m, rpc);
    NoticeReadsWatchers(m, Claimed(m, rpc), |m.posts|, rpc, toolName);
    RegisterKeepsWatchers(Noticed(Claimed(m, rpc), |m.posts|, rpc, toolName),
                          Post(rpc, toolName, Claim(m, rpc), Sent, false));
  }

  predicate SameWatchers(m: Meter, g: Meter) {
    g.watchers == m.watchers && g.watches == m.watches && g.matched == m.matched
  }

  lemma ClaimKeepsWatchers(m: Meter, rpc: string)
    ensures SameWatchers(m, Claimed(m, rpc))
  {
  }

  lemma RegisterKeepsWatchers(m: Meter, post: Post)
    ensures SameWatchers(m, Registered(m, post))
  {
  }

  lemma NoticeReadsWatchers(m: Meter, g: Meter, i: nat, rpc: string, toolName: Option<string>)
    requires SameWatchers(m, g)
    ensures SameWatchers(Noticed(m, i, rpc, toolName), Noticed(g, i, rpc, toolName))
    ensures Noticed(m, i, rpc, toolName).watches == m.watches
  {
  }

  lemma ResolveStep(m: Meter, rpc: string, toolName: Option<string>, at: nat)
    requires IsFirst(m, rpc, toolName, at)
    ensures var g := Step(m, Send(rpc, toolName));
            if at == |m.watchers| then g.matched == m.matched && g.watchers == m.watchers
            else g.matched == m.matched[m.watchers[at] := |m.posts|]
                 && g.watchers == m.watchers[..at] + m.watchers[at + 1..]
  {
    SendNotices(m, rpc, toolName);
    FirstIs(m, rpc, toolName, at);
  }

  lemma FirstIs(m: Meter, rpc: string, toolName: Option<string>, at: nat)
    requires IsFirst(m, rpc, toolName, at)
    ensures FirstMatch(m.watches, m.watchers, rpc, toolName) == at
  {
    var first := FirstMatch(m.watches, m.watchers, rpc, toolName);
    assert first == at;
  }

  /** Of the waiting watchers that ask for a POST, the first is resolved with it, and waits no more; the others wait
      on. */
  lemma FirstWatcherIsResolved(now: int, es: seq<Event>, rpc: string, toolName: Option<string>, at: nat)
    requires IsFirst(Run(NewMeter(now), es), rpc, toolName, at)
    ensures var m := Run(NewMeter(now), es);
            var g := Run(NewMeter(now), es + [Send(rpc, toolName)]);
            if at == |m.watchers| then g.matched == m.matched && g.watchers == m.watchers
            else g.matched == m.matched[m.watchers[at] := |m.posts|]
                 && g.watchers == m.watchers[..at] + m.watchers[at + 1..]
  {
    RunSnoc(now, es, Send(rpc, toolName));
    ResolveStep(Run(NewMeter(now), es), rpc, toolName, at);
  }

  /** Some event cancelled the watcher after it was registered. */
  predicate CancelledIn(now: int, es: seq<Event>, id: nat) {
    && es != []
    && var pre := es[..|es| - 1];
       CancelledIn(now, pre, id) || (es[|es| - 1] == CancelWatch(id) && id < |Run(NewMeter(now), pre).watches|)
  }

  ghost predicate WaiterIs(m: Meter, id: nat, cancelled: bool) {
    && (id in m.watchers <==> id < |m.watches| && id !in m.matched && !cancelled)
    && (cancelled || id in m.matched ==> id < |m.watches|)
  }

  /** A watcher waits exactly while it has been neither resolved nor cancelled. */
  lemma {:induction false} WaitsIff(now: int, es: seq<Event>, id: nat)
    ensures WaiterIs(Run(NewMeter(now), es), id, CancelledIn(now, es, id))
    decreases |es|
  {
    if es == [] {
    } else {
      var pre, e := es[..|es| - 1], es[|es| - 1];
      WaitsIff(now, pre, id);
      RunKeepsInv(now, pre);
      WaiterStep(Run(NewMeter(now), pre), e, id, CancelledIn(now, pre, id));
    }
  }

  lemma WaiterStep(m: Meter, e: Event, id: nat, cancelled: bool)
    requires WatchersOk(m) && WaiterIs(m, id, cancelled)
    ensures WaiterIs(Step(m, e), id, cancelled || (e == CancelWatch(id) && id < |m.watches|))
  {
    if e.CancelWatch? {
      CancelTakesOut(m, e.watcher, id);
    } else if e.Send? {
      SendTakesOut(m, e.rpc, e.toolName, id);
    } else if !e.WatchNext? {
      OthersKeepWatchers(m, e);
    }
  }

  lemma OthersKeepWatchers(m: Meter, e: Event)
    requires !e.CancelWatch? && !e.Send? && !e.WatchNext?
    ensures var g := Step(m, e); g.watchers == m.watchers && g.watches == m.watches && g.matched == m.matched
  {
  }

  lemma WithoutLacks(s: seq<nat>, at: nat, x: nat)
    requires at < |s| && forall a, b :: 0 <= a < b < |s| ==> s[a] != s[b]
    ensures x in Without(s, at) <==> x in s && x != s[at]
  {
    if x in s && x != s[at] {
      var k :| 0 <= k < |s| && s[k] == x;
      assert Without(s, at)[if k < at then k else k - 1] == x;
    }
  }

  lemma CancelTakesOut(m: Meter, watcher: nat, id: nat)
    requires WatchersOk(m)
    ensures id in Step(m, CancelWatch(watcher)).watchers <==> id in m.watchers && id != watcher
  {
    var at := IndexOf(m.watchers, watcher);
    if at < |m.watchers| { WithoutLacks(m.watchers, at, id); }
  }

  lemma SendTakesOut(m: Meter, rpc: string, toolName: Option<string>, id: nat)
    requires WatchersOk(m)
    ensures var g := Step(m, Send(rpc, toolName));
            && (id in g.watchers <==> id in m.watchers && id !in g.matched)
            && (id in m.matched ==> id in g.matched)
            && (id in g.matched && id !in m.matched ==> id in m.watchers)
            && g.watches == m.watches
  {
    SendNotices(m, rpc, toolName);
    NoticeTakesOut(m, |m.posts|, rpc, toolName, id);
  }

  lemma NoticeTakesOut(m: Meter, i: nat, rpc: string, toolName: Option<string>, id: nat)
    requires WatchersOk(m)
    ensures var g := Noticed(m, i, rpc, toolName);
            && (id in g.watchers <==> id in m.watchers && id !in g.matched)
            && (id in m.matched ==> id in g.matched)
            && (id in g.matched && id !in m.matched ==> id in m.watchers)
  {
    var at := FirstMatch(m.watches, m.watchers, rpc, toolName);
    if at < |m.watchers| { WithoutLacks(m.watchers, at, id); }
  }

  // ---- The gate ----

  /** The probe's finish() came after its write. */
  predicate FinishedIn(now: int, es: seq<Event>, k: nat) {
    && es != []
    && var m := Run(NewMeter(now), es[..|es| - 1]);
       || FinishedIn(now, es[..|es| - 1], k)
       || (es[|es| - 1] == Finish(k) && k < |m.probes| && m.probes[k].writtenAt.Some?)
  }

  predicate Silent(p: Probe) {
    p.gate.Some? && p.writtenAt.Some? && p.firstByteAt.None? && p.endedAt.None? && p.abort.None?
  }

  /** The deadline runs. */
  ghost predicate GateIs(p: Probe, finished: bool) {
    && p.timer == (if Silent(p) && !finished then Some(p.writtenAt.value + p.gate.value) else None)
    && (finished || p.abort.Some? ==> p.writtenAt.Some?)
  }

  predicate GateDue(p: Probe, now: int) { p.timer.Some? && now >= p.timer.value }

  /** What one event does to the gate. */
  ghost predicate GateMoves(m: Meter, e: Event, k: nat, p: Probe, q: Probe, finished: bool) {
    && GateIs(q, finished || (e == Finish(k) && p.writtenAt.Some?))
    && q.abort == if e == GateFires(k) && GateDue(p, m.now) then Some(GateAbort(m.now, false, false)) else p.abort
  }

  lemma NotingMovesGate(m: Meter, e: Event, k: nat, finished: bool)
    requires Notes(e) && k < |m.probes| && GateIs(m.probes[k], finished)
    ensures k < |Step(m, e).probes| && GateMoves(m, e, k, m.probes[k], Step(m, e).probes[k], finished)
  {
    NotingIs(m, e, k);
    NotedMovesGate(m.probes[k], e, m.now, finished);
  }

  lemma NotedMovesGate(p: Probe, e: Event, now: int, finished: bool)
    requires Notes(e) && GateIs(p, finished)
    ensures var q := Noted(p, e, now);
            && GateIs(q, finished || (e.Finish? && p.writtenAt.Some?))
            && q.abort == if e.GateFires? && GateDue(p, now) then Some(GateAbort(now, false, false)) else p.abort
  {
  }

  /** An end, and nothing else, stops the timer of a probe whose response or end arrives. */
  predicate EndStopsTimer(p: Probe, q: Probe) {
    && q.gate == p.gate && q.writtenAt == p.writtenAt && q.firstByteAt == p.firstByteAt && q.abort == p.abort
    && (p.endedAt.Some? ==> q.endedAt.Some?)
    && q.timer == if p.endedAt.None? && q.endedAt.Some? then None else p.timer
  }

  lemma EndingStopsTimer(m: Meter, e: Event, k: nat)
    requires Inv(m) && k < |m.probes| && (e.FetchThrew? || e.BodyOver?)
    ensures k < |Step(m, e).probes| && EndStopsTimer(m.probes[k], Step(m, e).probes[k])
  {
    if e.FetchThrew? && At(m, e.post, Sent) {
      ThrowKeepsInv(m, e.post);
      DoneRecords(m.(posts := m.posts[e.post := m.posts[e.post].(phase := FetchFailed)]), e.post, true, false, k);
    }
    if e.BodyOver? && At(m, e.post, Streaming) { DoneRecords(m, e.post, e.failed, e.cancelled, k); }
  }

  lemma HeadersStopTimer(m: Meter, i: nat, body: bool, response: Response, k: nat)
    requires Inv(m) && k < |m.probes|
    ensures var g := Step(m, Headers(i, body, response));
            k < |g.probes| && EndStopsTimer(m.probes[k], g.probes[k])
  {
    if At(m, i, Sent) {
      var phase := if body then Streaming else Bodyless;
      OpenedRecords(m, i, phase, response, k);
      HeadersKeepInv(m, i, phase, response);
      if !body { DoneRecords(Opened(m, i, Bodyless, response), i, false, false, k); }
    }
  }

  lemma StepMovesGate(m: Meter, e: Event, k: nat, finished: bool)
    requires Inv(m) && k < |m.probes| && GateIs(m.probes[k], finished)
    ensures k < |Step(m, e).probes| && GateMoves(m, e, k, m.probes[k], Step(m, e).probes[k], finished)
  {
    if Notes(e) {
      NotingMovesGate(m, e, k, finished);
    } else if e.Headers? {
      HeadersStopTimer(m, e.post, e.body, e.response, k);
    } else if e.FetchThrew? || e.BodyOver? {
      EndingStopsTimer(m, e, k);
    } else {
      OthersKeepProbes(m, e);
    }
  }

  /** A probe that the event adds. */
  lemma NewIsIdle(m: Meter, e: Event, k: nat)
    requires Inv(m) && |m.probes| <= k < |Step(m, e).probes|
    ensures GateIs(Step(m, e).probes[k], false)
  {
    if !Notes(e) && !e.Headers? && !e.FetchThrew? && !e.BodyOver? {
      AddedAreNew(m, e, k);
    } else {
      OthersAddNone(m, e);
    }
  }

  lemma AddedAreNew(m: Meter, e: Event, k: nat)
    requires !Notes(e) && !e.Headers? && !e.FetchThrew? && !e.BodyOver? && |m.probes| <= k < |Step(m, e).probes|
    ensures exists gate :: Step(m, e).probes[k] == NewProbe(gate, m.now)
  {
    if e.Arm? { assert Step(m, e).probes[k] == NewProbe(Some(e.gate), m.now); }
    if e.Send? { assert Step(m, e).probes[k] == NewProbe(None, m.now); }
  }

  lemma OthersAddNone(m: Meter, e: Event)
    requires Notes(e) || e.Headers? || e.FetchThrew? || e.BodyOver?
    ensures |Step(m, e).probes| == |m.probes|
  {
  }

  lemma FinishedIsThere(now: int, es: seq<Event>, k: nat)
    ensures FinishedIn(now, es, k) ==> k < |Run(NewMeter(now), es).probes|
    decreases |es|
  {
    if es != [] {
      var m := Run(NewMeter(now), es[..|es| - 1]);
      FinishedIsThere(now, es[..|es| - 1], k);
      RunKeepsInv(now, es[..|es| - 1]);
      if k < |m.probes| { StepRecords(m, es[|es| - 1], k); }
    }
  }

  /** In every run the deadline of a gated probe runs, budget milliseconds from its write, exactly until the first body
      byte, the end, the abort or finish(). */
  lemma {:induction false} GateRunsIff(now: int, es: seq<Event>, k: nat)
    requires k < |Run(NewMeter(now), es).probes|
    ensures GateIs(Run(NewMeter(now), es).probes[k], FinishedIn(now, es, k))
    decreases |es|
  {
    if es == [] {
    } else {
      var pre, e := es[..|es| - 1], es[|es| - 1];
      var m := Run(NewMeter(now), pre);
      RunKeepsInv(now, pre);
      if k < |m.probes| {
        GateRunsIff(now, pre, k);
        StepMovesGate(m, e, k, FinishedIn(now, pre, k));
      } else {
        NewIsIdle(m, e, k);
        FinishedIsThere(now, pre, k);
      }
    }
  }

  /** The gate aborts at the first firing that comes at its deadline or later; nothing else aborts, or undoes that. */
  lemma GateAbortsWhenDue(now: int, es: seq<Event>, e: Event, k: nat)
    requires k < |Run(NewMeter(now), es).probes|
    ensures var m := Run(NewMeter(now), es);
            var g := Run(NewMeter(now), es + [e]);
            && k < |g.probes|
            && g.probes[k].abort == if e == GateFires(k) && GateDue(m.probes[k], m.now)
                                    then Some(GateAbort(m.now, false, false)) else m.probes[k].abort
  {
    RunKeepsInv(now, es);
    GateRunsIff(now, es, k);
    StepMovesGate(Run(NewMeter(now), es), e, k, FinishedIn(now, es, k));
    RunSnoc(now, es, e);
  }
}
