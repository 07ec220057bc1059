/** The relay's tool-visibility cache: one `tools/list` read in flight per server, a TTL, stale answers while
    reads fail, and a rate-limited re-read for a name the list lacks. Code between two awaits is one step. */
module ToolVisibility {
  import opened Options

  datatype Audience = Model | App

  /** A tool's declared visibility; None is "declares none". */
  type Declared = Option<seq<Audience>>

  datatype Tool = Tool(name: string, visibility: Declared)

  predicate VisibleToApp(v: Declared) { v.None? || App in v.value }

  /** The map built from a list: a later tool of the same name wins. */
  function ToolMap(tools: seq<Tool>): map<string, Declared> {
    if tools == [] then map[]
    else
      var last := tools[|tools| - 1];
      ToolMap(tools[..|tools| - 1])[last.name := last.visibility]
  }

  datatype Entry = Entry(tools: map<string, Declared>, readAt: int)

  datatype Lookup = Listed(visibility: Declared) | Unlisted | Unavailable(error: string)

  /** What a read resolves to: the new entry, or the error text. */
  datatype ReadResult = Good(entry: Entry) | Failed(error: string)

  datatype Config = Config(ttlMs: int, refreshMinMs: int)

  /** inflight holds, for each server, the read that lookups join; reads are numbered as they start. */
  datatype Cache = Cache(entries: map<string, Entry>, inflight: map<string, nat>, nextRead: nat)

  /** Where a suspended lookup waits. */
  datatype Await = FirstRead(read: nat, entry: Option<Entry>) | SecondRead(read: nat)

  datatype Outcome = Answered(lookup: Lookup) | Waits(await: Await)

  function Get(entries: map<string, Entry>, key: string): Option<Entry> {
    if key in entries then Some(entries[key]) else None
  }

  function Reread(c: Cache, key: string): (Cache, nat) {
    if key in c.inflight then (c, c.inflight[key])
    else (c.(inflight := c.inflight[key := c.nextRead], nextRead := c.nextRead + 1), c.nextRead)
  }

  /** A read that has left `inflight` is joined no more: the next lookup that needs one starts another, and no other
      server notices. */
  lemma SettledReadIsNotJoined(c: Cache, key: string, other: string)
    requires other != key
    ensures var left := c.(inflight := c.inflight - {key});
            && Reread(left, key).1 == c.nextRead
            && Reread(left, other).1 == Reread(c, other).1
            && (key in c.inflight ==> Reread(c, key) == (c, c.inflight[key]))
  {
  }

  /** The end of a lookup, from the list it holds. */
  function FromEntry(cfg: Config, c: Cache, key: string, name: string, e: Entry, now: int): (Cache, Outcome) {
    if name in e.tools then (c, Answered(Listed(e.tools[name])))
    else if now - e.readAt < cfg.refreshMinMs then (c, Answered(Unlisted))
    else (Reread(c, key).0, Waits(SecondRead(Reread(c, key).1)))
  }

  function Begin(cfg: Config, c: Cache, key: string, name: string, now: int): (Cache, Outcome) {
    var entry := Get(c.entries, key);
    if entry.None? || now - entry.value.readAt >= cfg.ttlMs
    then (Reread(c, key).0, Waits(FirstRead(Reread(c, key).1, entry)))
    else FromEntry(cfg, c, key, name, entry.value, now)
  }

  function Resume(cfg: Config, c: Cache, key: string, name: string, a: Await, r: ReadResult, now: int): (Cache, Outcome)
  {
    match a
    case FirstRead(_, entry) =>
      if r.Good? then FromEntry(cfg, c, key, name, r.entry, now)
      else if entry.None? || name !in entry.value.tools then (c, Answered(Unavailable(r.error)))
      else (c, Answered(Listed(entry.value.tools[name])))
    case SecondRead(_) =>
      if r.Failed? then (c, Answered(Unavailable(r.error)))
      else (c, Answered(if name in r.entry.tools then Listed(r.entry.tools[name]) else Unlisted))
  }

  // ---- Runs: any number of lookups, reads that succeed or fail in any order ----

  /** A read stores its result, later leaves `inflight`, and only then resumes its waiters. */
  datatype Phase = Pending | Stored(result: ReadResult) | Settled(result: ReadResult)

  /** successes counts the successful reads completed when this read started. */
  datatype Read = Read(key: string, startedAt: int, successes: nat, phase: Phase)

  datatype CallState = Waiting(await: Await) | Done(lookup: Lookup, successes: nat)

  /** The result a lookup resumed with, and when. */
  datatype Heard = Heard(result: ReadResult, at: int)

  datatype Call = Call(key: string, name: string, successes: nat, beganAt: int, heard: seq<Heard>, state: CallState)

  datatype Success = Success(key: string, entry: Entry)

  datatype World = World(cache: Cache, now: int, started: seq<Read>, calls: seq<Call>, history: seq<Success>)

  datatype Event =
    | Tick(ms: nat)
    | LookupCall(key: string, name: string)
    | ReadOk(read: nat, tools: seq<Tool>)
    | ReadFails(read: nat, error: string)
    | LeavesInflight(read: nat)
    | Resumes(call: nat)

  function WithCache(w: World, c: Cache, key: string): World {
    w.(cache := c,
       started := if c.nextRead == w.cache.nextRead then w.started
                else w.started + [Read(key, w.now, |w.history|, Pending)])
  }

  function StateOf(w: World, o: Outcome): CallState {
    if o.Answered? then Done(o.lookup, |w.history|) else Waiting(o.await)
  }

  function Resumed(w: World, c: Call, r: ReadResult, o: Outcome): Call {
    c.(heard := c.heard + [Heard(r, w.now)], state := StateOf(w, o))
  }

  predicate CanResume(w: World, i: nat) {
    && i < |w.calls| && w.calls[i].state.Waiting?
    && w.calls[i].state.await.read < |w.started|
    && w.started[w.calls[i].state.await.read].phase.Settled?
  }

  function Step(cfg: Config, w: World, e: Event): World {
    match e
    case Tick(ms) => w.(now := w.now + ms)
    case LookupCall(key, name) =>
      var (c, o) := Begin(cfg, w.cache, key, name, w.now);
      WithCache(w, c, key).(calls := w.calls + [Call(key, name, |w.history|, w.now, [], StateOf(w, o))])
    case ReadOk(i, tools) =>
      if i >= |w.started| || !w.started[i].phase.Pending? then w
      else
        var entry := Entry(ToolMap(tools), w.now);
        w.(cache := w.cache.(entries := w.cache.entries[w.started[i].key := entry]),
           started := w.started[i := w.started[i].(phase := Stored(Good(entry)))],
           history := w.history + [Success(w.started[i].key, entry)])
    case ReadFails(i, error) =>
      if i >= |w.started| || !w.started[i].phase.Pending? then w
      else w.(started := w.started[i := w.started[i].(phase := Stored(Failed(error)))])
    case LeavesInflight(i) =>
      if i >= |w.started| || !w.started[i].phase.Stored? then w
      else w.(cache := w.cache.(inflight := w.cache.inflight - {w.started[i].key}),
              started := w.started[i := w.started[i].(phase := Settled(w.started[i].phase.result))])
    case Resumes(i) =>
      if !CanResume(w, i) then w
      else
        var call := w.calls[i];
        var r := w.started[call.state.await.read].phase.result;
        var (c, o) := Resume(cfg, w.cache, call.key, call.name, call.state.await, r, w.now);
        WithCache(w, c, call.key).(calls := w.calls[i := Resumed(w, call, r, o)])
  }

  function Fresh(now: int): World { World(Cache(map[], map[], 0), now, [], [], []) }

  /** Every interleaving is a sequence of events; an event that cannot happen changes nothing. */
  function Run(cfg: Config, w: World, es: seq<Event>): World {
    if es == [] then w else Step(cfg, Run(cfg, w, es[..|es| - 1]), es[|es| - 1])
  }

  // ---- What the answers rest on ----

  ghost predicate ReadAs(h: seq<Success>, key: string, e: Entry) { Success(key, e) in h }

  /** A successful read of this server named the tool with this visibility, or lacked it. */
  ghost predicate Justified(h: seq<Success>, key: string, name: string, l: Lookup) {
    match l
    case Listed(v) =>
      exists k :: 0 <= k < |h| && h[k].key == key && name in h[k].entry.tools && h[k].entry.tools[name] == v
    case Unlisted => exists k :: 0 <= k < |h| && h[k].key == key && name !in h[k].entry.tools
    case Unavailable(_) => true
  }

  function Latest(h: seq<Success>, key: string): Option<Entry> {
    if h == [] then None
    else if h[|h| - 1].key == key then Some(h[|h| - 1].entry)
    else Latest(h[..|h| - 1], key)
  }

  ghost predicate ReadSince(h: seq<Success>, key: string, from: nat) {
    exists k :: from <= k < |h| && h[k].key == key
  }

  predicate Names(e: Option<Entry>, name: string) { e.Some? && name in e.value.tools }

  ghost predicate InflightOk(w: World) {
    && w.cache.nextRead == |w.started|
    && (forall key :: key in w.cache.inflight ==>
          w.cache.inflight[key] < |w.started|
          && w.started[w.cache.inflight[key]].key == key && !w.started[w.cache.inflight[key]].phase.Settled?)
    && (forall i :: 0 <= i < |w.started| && !w.started[i].phase.Settled? ==>
          w.started[i].key in w.cache.inflight && w.cache.inflight[w.started[i].key] == i)
  }

  ghost predicate EntriesOk(w: World) {
    && (forall key :: Get(w.cache.entries, key) == Latest(w.history, key))
    && (forall i :: 0 <= i < |w.started| && !w.started[i].phase.Pending? && w.started[i].phase.result.Good? ==>
          ReadAs(w.history, w.started[i].key, w.started[i].phase.result.entry))
  }

  /** What a call waits for, and why a name that was listed when it began stays listed. */
  ghost predicate CallOk(w: World, c: Call) {
    && c.successes <= |w.history|
    && var was := Latest(w.history[..c.successes], c.key);
       match c.state
       case Waiting(FirstRead(i, entry)) =>
         && entry == was && i < |w.started| && w.started[i].key == c.key
         && (!w.started[i].phase.Pending? && w.started[i].phase.result.Good? ==>
               entry == Some(w.started[i].phase.result.entry) || ReadSince(w.history, c.key, c.successes))
       case Waiting(SecondRead(i)) =>
         && i < |w.started| && w.started[i].key == c.key
         && (Names(was, c.name) ==> ReadSince(w.history, c.key, c.successes))
       case Done(l, n) =>
         && c.successes <= n <= |w.history|
         && Justified(w.history[..n], c.key, c.name, l)
         && (Names(was, c.name) && !ReadSince(w.history[..n], c.key, c.successes) ==>
               l == Listed(was.value.tools[c.name]))
  }

  /** A read that is stored but still in flight is its server's latest success. */
  ghost predicate StoredIsLatest(w: World) {
    forall i :: 0 <= i < |w.started| && w.started[i].phase.Stored? && w.started[i].phase.result.Good? ==>
      Latest(w.history, w.started[i].key) == Some(w.started[i].phase.result.entry)
  }

  ghost predicate CallsOk(w: World) { forall i :: 0 <= i < |w.calls| ==> CallOk(w, w.calls[i]) }

  ghost predicate Inv(w: World) { InflightOk(w) && EntriesOk(w) && StoredIsLatest(w) && CallsOk(w) }

  lemma {:induction false} LatestIsRead(h: seq<Success>, key: string)
    ensures Latest(h, key).Some? ==> ReadAs(h, key, Latest(h, key).value)
    ensures Latest(h, key).None? <==> forall k :: 0 <= k < |h| ==> h[k].key != key
    decreases |h|
  {
    if h == [] {
    } else {
      LatestIsRead(h[..|h| - 1], key);
      assert forall k :: 0 <= k < |h| - 1 ==> h[..|h| - 1][k] == h[k];
    }
  }

  lemma LatestSnoc(h: seq<Success>, s: Success)
    ensures forall key :: Latest(h + [s], key) == if s.key == key then Some(s.entry) else Latest(h, key)
  {
    assert (h + [s])[..|h|] == h;
  }

  lemma JustifiedBy(h: seq<Success>, key: string, name: string, e: Entry)
    requires ReadAs(h, key, e)
    ensures Justified(h, key, name, if name in e.tools then Listed(e.tools[name]) else Unlisted)
  {
    var k :| 0 <= k < |h| && h[k] == Success(key, e);
  }

  /** A call's standing survives steps that only finish other work. */
  lemma CallOkCarries(w: World, w': World, c: Call)
    requires CallOk(w, c) && w.history == w'.history && |w.started| <= |w'.started|
    requires forall i :: 0 <= i < |w.started| ==> w.started[i].key == w'.started[i].key
    requires forall i :: 0 <= i < |w.started| && !w'.started[i].phase.Pending? && w'.started[i].phase.result.Good? ==>
               !w.started[i].phase.Pending? && w.started[i].phase.result == w'.started[i].phase.result
    ensures CallOk(w', c)
  {
  }

  lemma CallsCarry(w: World, w': World)
    requires CallsOk(w) && w.history == w'.history && w.calls == w'.calls && |w.started| <= |w'.started|
    requires forall i :: 0 <= i < |w.started| ==> w.started[i].key == w'.started[i].key
    requires forall i :: 0 <= i < |w.started| && !w'.started[i].phase.Pending? && w'.started[i].phase.result.Good? ==>
               !w.started[i].phase.Pending? && w.started[i].phase.result == w'.started[i].phase.result
    ensures CallsOk(w')
  {
    forall k | 0 <= k < |w.calls| ensures CallOk(w', w.calls[k]) {
      assert CallOk(w, w.calls[k]);
      CallOkCarries(w, w', w.calls[k]);
    }
  }

  lemma CallOkAfterSuccess(w: World, i: nat, entry: Entry, w': World, c: Call)
    requires CallOk(w, c) && i < |w.started| && w.started[i].phase.Pending?
    requires w'.history == w.history + [Success(w.started[i].key, entry)]
    requires w'.started == w.started[i := w.started[i].(phase := Stored(Good(entry)))]
    ensures CallOk(w', c)
  {
    assert w'.history[..c.successes] == w.history[..c.successes];
    if c.state.Done? {
      assert w'.history[..c.state.successes] == w.history[..c.state.successes];
    } else {
      if w.started[i].key == c.key { assert w'.history[|w.history|].key == c.key; }
      if ReadSince(w.history, c.key, c.successes) {
        var k :| c.successes <= k < |w.history| && w.history[k].key == c.key;
        assert w'.history[k].key == c.key;
      }
    }
  }

  lemma WithCacheKeeps(w: World, c: Cache, key: string)
    requires Inv(w) && (c == w.cache || c == Reread(w.cache, key).0)
    ensures Inv(WithCache(w, c, key))
    ensures w.started <= WithCache(w, c, key).started
    ensures c == Reread(w.cache, key).0 ==>
              && Reread(w.cache, key).1 < |WithCache(w, c, key).started|
              && WithCache(w, c, key).started[Reread(w.cache, key).1].key == key
  {
    CallsCarry(w, WithCache(w, c, key));
  }

  /** A lookup that answers, or waits, from a list that is the server's latest or newer than the call. */
  lemma FromEntryOk(cfg: Config, w: World, call: Call, e: Entry)
    requires Inv(w) && call.successes <= |w.history| && ReadAs(w.history, call.key, e)
    requires Latest(w.history[..call.successes], call.key) == Some(e)
             || ReadSince(w.history, call.key, call.successes)
    ensures var (c, o) := FromEntry(cfg, w.cache, call.key, call.name, e, w.now);
            Inv(WithCache(w, c, call.key)) && CallOk(WithCache(w, c, call.key), call.(state := StateOf(w, o)))
  {
    WithCacheKeeps(w, FromEntry(cfg, w.cache, call.key, call.name, e, w.now).0, call.key);
    JustifiedBy(w.history, call.key, call.name, e);
    assert w.history[..|w.history|] == w.history;
  }

  lemma BeginOk(cfg: Config, w: World, key: string, name: string)
    requires Inv(w)
    ensures var (c, o) := Begin(cfg, w.cache, key, name, w.now);
            && Inv(WithCache(w, c, key))
            && CallOk(WithCache(w, c, key), Call(key, name, |w.history|, w.now, [], StateOf(w, o)))
  {
    var entry := Get(w.cache.entries, key);
    assert w.history[..|w.history|] == w.history;
    LatestIsRead(w.history, key);
    if entry.None? || w.now - entry.value.readAt >= cfg.ttlMs {
      WithCacheKeeps(w, Reread(w.cache, key).0, key);
    } else {
      var (c, o) := Begin(cfg, w.cache, key, name, w.now);
      FromEntryOk(cfg, w, Call(key, name, |w.history|, w.now, [], StateOf(w, o)), entry.value);
    }
  }

  lemma ResumeOk(cfg: Config, w: World, i: nat)
    requires Inv(w) && CanResume(w, i)
    ensures var call := w.calls[i];
            var r := w.started[call.state.await.read].phase.result;
            var (c, o) := Resume(cfg, w.cache, call.key, call.name, call.state.await, r, w.now);
            Inv(WithCache(w, c, call.key)) && CallOk(WithCache(w, c, call.key), Resumed(w, call, r, o))
  {
    var call := w.calls[i];
    assert CallOk(w, call);
    var r := w.started[call.state.await.read].phase.result;
    assert w.history[..|w.history|] == w.history;
    if r.Good? {
      JustifiedBy(w.history, call.key, call.name, r.entry);
      if call.state.await.FirstRead? {
        FromEntryOk(cfg, w, call.(heard := call.heard + [Heard(r, w.now)]), r.entry);
      } else {
        WithCacheKeeps(w, w.cache, call.key);
      }
    } else {
      WithCacheKeeps(w, w.cache, call.key);
      if call.state.await.FirstRead? && call.state.await.entry.Some? {
        LatestIsRead(w.history[..call.successes], call.key);
        JustifiedBy(w.history, call.key, call.name, call.state.await.entry.value);
      }
    }
  }

  lemma ReadOkKeepsInv(cfg: Config, w: World, i: nat, tools: seq<Tool>)
    requires Inv(w) && i < |w.started| && w.started[i].phase.Pending?
    ensures Inv(Step(cfg, w, ReadOk(i, tools)))
  {
    var w' := Step(cfg, w, ReadOk(i, tools));
    var entry := Entry(ToolMap(tools), w.now);
    LatestSnoc(w.history, Success(w.started[i].key, entry));
    assert w'.history[|w.history|] == Success(w.started[i].key, entry);
    assert forall s :: s in w.history ==> s in w'.history;
    forall k | 0 <= k < |w.calls| ensures CallOk(w', w.calls[k]) {
      assert CallOk(w, w.calls[k]);
      CallOkAfterSuccess(w, i, entry, w', w.calls[k]);
    }
  }

  lemma StepKeepsInv(cfg: Config, w: World, e: Event)
    requires Inv(w)
    ensures Inv(Step(cfg, w, e))
  {
    var w' := Step(cfg, w, e);
    match e
    case Tick(ms) =>
      CallsCarry(w, w');
    case LookupCall(key, name) =>
      BeginOk(cfg, w, key, name);
      AddCall(WithCache(w, Begin(cfg, w.cache, key, name, w.now).0, key), w'.calls[|w.calls|]);
    case ReadOk(i, tools) => if i < |w.started| && w.started[i].phase.Pending? { ReadOkKeepsInv(cfg, w, i, tools); }
    case ReadFails(i, error) =>
      CallsCarry(w, w');
    case LeavesInflight(i) =>
      CallsCarry(w, w');
    case Resumes(i) =>
      if CanResume(w, i) {
        ResumeOk(cfg, w, i);
        var call := w.calls[i];
        var c := Resume(cfg, w.cache, call.key, call.name, call.state.await,
                        w.started[call.state.await.read].phase.result, w.now).0;
        SetCall(WithCache(w, c, call.key), i, w'.calls[i]);
      }
  }

  lemma AddCall(w: World, c: Call)
    requires Inv(w) && CallOk(w, c)
    ensures Inv(w.(calls := w.calls + [c]))
  {
    var w' := w.(calls := w.calls + [c]);
    forall k | 0 <= k < |w'.calls| ensures CallOk(w', w'.calls[k]) {
      assert CallOk(w, w'.calls[k]);
      CallOkCarries(w, w', w'.calls[k]);
    }
  }

  lemma SetCall(w: World, i: nat, c: Call)
    requires Inv(w) && CallOk(w, c) && i < |w.calls|
    ensures Inv(w.(calls := w.calls[i := c]))
  {
    var w' := w.(calls := w.calls[i := c]);
    forall k | 0 <= k < |w'.calls| ensures CallOk(w', w'.calls[k]) {
      assert CallOk(w, w'.calls[k]);
      CallOkCarries(w, w', w'.calls[k]);
    }
  }

  lemma {:induction false} RunKeepsInv(cfg: Config, now: int, es: seq<Event>)
    ensures Inv(Run(cfg, Fresh(now), es))
    decreases |es|
  {
    if es == [] {
    } else {
      RunKeepsInv(cfg, now, es[..|es| - 1]);
      StepKeepsInv(cfg, Run(cfg, Fresh(now), es[..|es| - 1]), es[|es| - 1]);
    }
  }

  // ---- Results ----

  /** The successes before the n-th. */
  function Before(h: seq<Success>, n: nat): seq<Success> { if n <= |h| then h[..n] else h }

  /** At most one read of a server is in flight. */
  lemma OneReadInFlight(cfg: Config, now: int, es: seq<Event>, i: nat, j: nat)
    requires var w := Run(cfg, Fresh(now), es);
             i < |w.started| && j < |w.started| && !w.started[i].phase.Settled? && !w.started[j].phase.Settled?
             && w.started[i].key == w.started[j].key
    ensures i == j
  {
    RunKeepsInv(cfg, now, es);
  }

  /** Every answer rests on a successful read of that server. */
  lemma AnswersAreRead(cfg: Config, now: int, es: seq<Event>, i: nat)
    requires var w := Run(cfg, Fresh(now), es); i < |w.calls| && w.calls[i].state.Done?
    ensures var w := Run(cfg, Fresh(now), es);
            var c := w.calls[i];
            Justified(Before(w.history, c.state.successes), c.key, c.name, c.state.lookup)
  {
    RunKeepsInv(cfg, now, es);
    var w := Run(cfg, Fresh(now), es);
    assert CallOk(w, w.calls[i]);
  }

  /** A name in the last good list when a call begins is answered from that list, unless a read succeeds
      before the answer: failing re-reads never make it unlisted or unavailable. */
  lemma StaleWhileError(cfg: Config, now: int, es: seq<Event>, i: nat)
    requires var w := Run(cfg, Fresh(now), es); i < |w.calls| && w.calls[i].state.Done?
    requires var w := Run(cfg, Fresh(now), es); var c := w.calls[i];
             && Names(Latest(Before(w.history, c.successes), c.key), c.name)
             && !ReadSince(Before(w.history, c.state.successes), c.key, c.successes)
    ensures var w := Run(cfg, Fresh(now), es); var c := w.calls[i];
            c.state.lookup == Listed(Latest(Before(w.history, c.successes), c.key).value.tools[c.name])
  {
    RunKeepsInv(cfg, now, es);
    var w := Run(cfg, Fresh(now), es);
    assert CallOk(w, w.calls[i]);
  }

  /** A lookup is answered without waiting exactly when its server's latest list is younger than the TTL and names the
      tool or is younger than the refresh minimum too. */
  lemma AnsweredAtOnceIff(cfg: Config, now: int, es: seq<Event>, key: string, name: string)
    ensures var w := Run(cfg, Fresh(now), es);
            Begin(cfg, w.cache, key, name, w.now).1.Answered? <==>
              && Latest(w.history, key).Some?
              && w.now - Latest(w.history, key).value.readAt < cfg.ttlMs
              && (name in Latest(w.history, key).value.tools
                  || w.now - Latest(w.history, key).value.readAt < cfg.refreshMinMs)
  {
    RunKeepsInv(cfg, now, es);
  }

  // ---- The relay route ----

  datatype Verdict = RefuseUnavailable | RefuseUnknownTool | Relay

  /** What the tool-call route does with an answer: -32603, -32602, or the relayed call. */
  function Route(l: Lookup): Verdict {
    if l.Unavailable? then RefuseUnavailable
    else if l.Listed? && !VisibleToApp(l.visibility) then RefuseUnknownTool
    else Relay
  }

  /** A relayed call's tool was absent or app-visible in some successful read of that server, in every run. */
  lemma RelayedWasVisible(cfg: Config, now: int, es: seq<Event>, i: nat)
    requires var w := Run(cfg, Fresh(now), es);
             i < |w.calls| && w.calls[i].state.Done? && Route(w.calls[i].state.lookup) == Relay
    ensures var w := Run(cfg, Fresh(now), es); var c := w.calls[i];
            exists k :: 0 <= k < |w.history| && w.history[k].key == c.key
              && (c.name in w.history[k].entry.tools ==> VisibleToApp(w.history[k].entry.tools[c.name]))
  {
    AnswersAreRead(cfg, now, es, i);
    RunKeepsInv(cfg, now, es);
    var w := Run(cfg, Fresh(now), es);
    var c := w.calls[i];
    assert CallOk(w, c);
    var h := Before(w.history, c.state.successes);
    var k :| 0 <= k < |h| && h[k].key == c.key
      && (if c.state.lookup.Listed?
          then c.name in h[k].entry.tools && h[k].entry.tools[c.name] == c.state.lookup.visibility
          else c.name !in h[k].entry.tools);
    assert h[k] == w.history[k];
  }

  /** So a tool that every successful read has named without "app" is never relayed. */
  lemma ModelOnlyIsNeverRelayed(cfg: Config, now: int, es: seq<Event>, i: nat)
    requires var w := Run(cfg, Fresh(now), es); i < |w.calls| && w.calls[i].state.Done?
    requires var w := Run(cfg, Fresh(now), es); var c := w.calls[i];
             forall k :: 0 <= k < |w.history| && w.history[k].key == c.key ==>
               c.name in w.history[k].entry.tools && !VisibleToApp(w.history[k].entry.tools[c.name])
    ensures Route(Run(cfg, Fresh(now), es).calls[i].state.lookup) != Relay
  {
    if Route(Run(cfg, Fresh(now), es).calls[i].state.lookup) == Relay {
      RelayedWasVisible(cfg, now, es, i);
    }
  }

  // ---- Which list answers ----

  /** The list the call found was young enough to be used. */
  predicate HadList(cfg: Config, was: Option<Entry>, c: Call) {
    was.Some? && c.beganAt - was.value.readAt < cfg.ttlMs
  }

  predicate Lacks(cfg: Config, e: Entry, name: string, at: int) {
    name !in e.tools && at - e.readAt >= cfg.refreshMinMs
  }

  /** The list an answer rests on: the last one the call heard of; the one it found, if it heard of none; or the
      expired one it found, if its only read failed and that list names the tool. */
  function Source(cfg: Config, was: Option<Entry>, c: Call): Option<Entry> {
    if c.heard == [] then was
    else if c.heard[|c.heard| - 1].result.Good? then Some(c.heard[|c.heard| - 1].result.entry)
    else if |c.heard| == 1 && !HadList(cfg, was, c) && Names(was, c.name) then was
    else None
  }

  /** A call hears of one read if the list it found is missing, expired, or old and without the name; and of a second
      only if the first gave such an old list without the name. */
  predicate HearsOf(cfg: Config, was: Option<Entry>, c: Call, n: nat) {
    if HadList(cfg, was, c) then n == if Lacks(cfg, was.value, c.name, c.beganAt) then 1 else 0
    else if c.heard == [] then n == 1
    else
      var h := c.heard[0];
      n == if h.result.Good? && Lacks(cfg, h.result.entry, c.name, h.at) then 2 else 1
  }

  /** The list was the latest when the call began, or was read later. */
  ghost predicate NewSince(h: seq<Success>, c: Call, e: Entry) {
    || (c.successes <= |h| && Latest(h[..c.successes], c.key) == Some(e))
    || exists k :: c.successes <= k < |h| && h[k] == Success(c.key, e)
  }

  ghost predicate HeardOk(h: seq<Success>, c: Call) {
    forall k :: 0 <= k < |c.heard| && c.heard[k].result.Good? ==> NewSince(h, c, c.heard[k].result.entry)
  }

  ghost predicate AwaitOk(w: World, c: Call, i: nat) {
    && i < |w.started| && w.started[i].key == c.key
    && (!w.started[i].phase.Pending? && w.started[i].phase.result.Good? ==>
          NewSince(w.history, c, w.started[i].phase.result.entry))
  }

  /** The answer is what its list says of the name, or the error of the last read. */
  ghost predicate AnswersBy(cfg: Config, was: Option<Entry>, c: Call, l: Lookup) {
    match l
    case Listed(v) =>
      Names(Source(cfg, was, c), c.name) && Source(cfg, was, c).value.tools[c.name] == v
    case Unlisted => Source(cfg, was, c).Some? && !Names(Source(cfg, was, c), c.name)
    case Unavailable(error) =>
      Source(cfg, was, c).None? && c.heard != [] && c.heard[|c.heard| - 1].result == Failed(error)
  }

  ghost predicate Told(cfg: Config, w: World, c: Call) {
    && c.successes <= |w.history| && HeardOk(w.history, c)
    && var was := Latest(w.history[..c.successes], c.key);
       match c.state
       case Waiting(FirstRead(i, entry)) =>
         entry == was && AwaitOk(w, c, i) && c.heard == [] && !HadList(cfg, was, c)
       case Waiting(SecondRead(i)) =>
         AwaitOk(w, c, i) && |c.heard| < 2 && HearsOf(cfg, was, c, |c.heard| + 1)
         && (c.heard == [] ==> HadList(cfg, was, c))
       case Done(l, _) => HearsOf(cfg, was, c, |c.heard|) && AnswersBy(cfg, was, c, l)
  }

  ghost predicate AllTold(cfg: Config, w: World) { forall i :: 0 <= i < |w.calls| ==> Told(cfg, w, w.calls[i]) }

  /** What a step does to the reads and the history: a new good result is a new success. */
  ghost predicate Grows(w: World, w': World) {
    && w.history <= w'.history && |w.started| <= |w'.started|
    && forall i :: 0 <= i < |w.started| ==>
         && w'.started[i].key == w.started[i].key
         && (!w'.started[i].phase.Pending? && w'.started[i].phase.result.Good? ==>
               || (!w.started[i].phase.Pending? && w.started[i].phase.result == w'.started[i].phase.result)
               || (|w.history| < |w'.history|
                   && w'.history[|w.history|] == Success(w.started[i].key, w'.started[i].phase.result.entry)))
  }

  lemma NewSinceGrows(h: seq<Success>, h': seq<Success>, c: Call, e: Entry)
    requires h <= h' && c.successes <= |h| && NewSince(h, c, e)
    ensures NewSince(h', c, e)
  {
    assert h'[..c.successes] == h[..c.successes];
    if Latest(h[..c.successes], c.key) != Some(e) {
      var k :| c.successes <= k < |h| && h[k] == Success(c.key, e);
      assert h'[k] == h[k];
    }
  }

  lemma ToldGrows(cfg: Config, w: World, w': World, c: Call)
    requires Told(cfg, w, c) && Grows(w, w')
    ensures Told(cfg, w', c)
  {
    assert w'.history[..c.successes] == w.history[..c.successes];
    forall k | 0 <= k < |c.heard| && c.heard[k].result.Good?
      ensures NewSince(w'.history, c, c.heard[k].result.entry)
    {
      NewSinceGrows(w.history, w'.history, c, c.heard[k].result.entry);
    }
    if c.state.Waiting? {
      var r := w.started[c.state.await.read];
      if !r.phase.Pending? && r.phase.result.Good? {
        NewSinceGrows(w.history, w'.history, c, r.phase.result.entry);
      }
    }
  }

  lemma {:induction false} LatestIsNew(h: seq<Success>, c: Call, e: Entry)
    requires c.successes <= |h| && Latest(h, c.key) == Some(e)
    ensures NewSince(h, c, e)
    decreases |h|
  {
    if c.successes == |h| {
      assert h[..|h|] == h;
    } else if h[|h| - 1].key == c.key {
    } else {
      var g := h[..|h| - 1];
      LatestIsNew(g, c, e);
      NewSinceGrows(g, h, c, e);
    }
  }

  /** Joining a read in flight, or starting one. */
  lemma JoinedIsNew(w: World, c: Call)
    requires Inv(w) && c.successes <= |w.history|
    ensures AwaitOk(WithCache(w, Reread(w.cache, c.key).0, c.key), c, Reread(w.cache, c.key).1)
  {
    if c.key in w.cache.inflight {
      var r := w.started[w.cache.inflight[c.key]];
      if !r.phase.Pending? && r.phase.result.Good? { LatestIsNew(w.history, c, r.phase.result.entry); }
    }
  }

  lemma BeginTold(cfg: Config, w: World, key: string, name: string)
    requires Inv(w)
    ensures var (c, o) := Begin(cfg, w.cache, key, name, w.now);
            Told(cfg, WithCache(w, c, key), Call(key, name, |w.history|, w.now, [], StateOf(w, o)))
  {
    var (c, o) := Begin(cfg, w.cache, key, name, w.now);
    assert w.history[..|w.history|] == w.history;
    JoinedIsNew(w, Call(key, name, |w.history|, w.now, [], StateOf(w, o)));
  }

  lemma ResumeTold(cfg: Config, w: World, i: nat)
    requires Inv(w) && CanResume(w, i) && Told(cfg, w, w.calls[i])
    ensures var call := w.calls[i];
            var r := w.started[call.state.await.read].phase.result;
            var (c, o) := Resume(cfg, w.cache, call.key, call.name, call.state.await, r, w.now);
            Told(cfg, WithCache(w, c, call.key), Resumed(w, call, r, o))
  {
    var call := w.calls[i];
    var r := w.started[call.state.await.read].phase.result;
    var (c, o) := Resume(cfg, w.cache, call.key, call.name, call.state.await, r, w.now);
    var call' := Resumed(w, call, r, o);
    JoinedIsNew(w, call');
    forall k | 0 <= k < |call'.heard| && call'.heard[k].result.Good?
      ensures NewSince(w.history, call', call'.heard[k].result.entry)
    {
      assert NewSince(w.history, call, call'.heard[k].result.entry);
    }
  }

  lemma StepTells(cfg: Config, w: World, e: Event)
    requires Inv(w) && AllTold(cfg, w)
    ensures AllTold(cfg, Step(cfg, w, e))
  {
    var w' := Step(cfg, w, e);
    assert Grows(w, w');
    if e.LookupCall? { BeginTold(cfg, w, e.key, e.name); }
    if e.Resumes? && CanResume(w, e.call) { ResumeTold(cfg, w, e.call); }
    forall i | 0 <= i < |w'.calls| ensures Told(cfg, w', w'.calls[i]) {
      if i < |w.calls| && w'.calls[i] == w.calls[i] {
        ToldGrows(cfg, w, w', w.calls[i]);
      } else if e.LookupCall? {
        ToldGrows(cfg, WithCache(w, w'.cache, e.key), w', w'.calls[i]);
      } else {
        ToldGrows(cfg, WithCache(w, w'.cache, w.calls[i].key), w', w'.calls[i]);
      }
    }
  }

  lemma {:induction false} RunTells(cfg: Config, now: int, es: seq<Event>)
    ensures AllTold(cfg, Run(cfg, Fresh(now), es))
    decreases |es|
  {
    if es == [] {
    } else {
      RunKeepsInv(cfg, now, es[..|es| - 1]);
      RunTells(cfg, now, es[..|es| - 1]);
      StepTells(cfg, Run(cfg, Fresh(now), es[..|es| - 1]), es[|es| - 1]);
    }
  }

  /** What every answered call was told: it heard of as many reads as its lists called for, each list was the latest
      when the call began or newer, and the answer is what the last list says of the name, or the last read's error. */
  lemma AnsweredByItsList(cfg: Config, now: int, es: seq<Event>, i: nat)
    requires var w := Run(cfg, Fresh(now), es); i < |w.calls| && w.calls[i].state.Done?
    ensures var w := Run(cfg, Fresh(now), es); var c := w.calls[i];
            var was := Latest(Before(w.history, c.successes), c.key);
            HearsOf(cfg, was, c, |c.heard|) && HeardOk(w.history, c) && AnswersBy(cfg, was, c, c.state.lookup)
  {
    RunTells(cfg, now, es);
    var w := Run(cfg, Fresh(now), es);
    assert Told(cfg, w, w.calls[i]);
  }

  /** After a successful read that is the last a call heard of, no older list counts: it is listed with that list's
      visibility, or unlisted if that list lacks the name. */
  lemma GoodReadDecides(cfg: Config, now: int, es: seq<Event>, i: nat)
    requires var w := Run(cfg, Fresh(now), es);
             && i < |w.calls| && w.calls[i].state.Done? && w.calls[i].heard != []
             && w.calls[i].heard[|w.calls[i].heard| - 1].result.Good?
    ensures var c := Run(cfg, Fresh(now), es).calls[i];
            var tools := c.heard[|c.heard| - 1].result.entry.tools;
            c.state.lookup == if c.name in tools then Listed(tools[c.name]) else Unlisted
  {
    AnsweredByItsList(cfg, now, es, i);
  }

  /** The route relays exactly the calls that have a list to rest on and whose tool that list lacks, declares no
      visibility for, or shows to the app. */
  lemma RelayedIff(cfg: Config, now: int, es: seq<Event>, i: nat)
    requires var w := Run(cfg, Fresh(now), es); i < |w.calls| && w.calls[i].state.Done?
    ensures var w := Run(cfg, Fresh(now), es); var c := w.calls[i];
            var list := Source(cfg, Latest(Before(w.history, c.successes), c.key), c);
            Route(c.state.lookup) == Relay <==>
              && list.Some?
              && (c.name in list.value.tools ==>
                    list.value.tools[c.name].None? || App in list.value.tools[c.name].value)
  {
    AnsweredByItsList(cfg, now, es, i);
  }

  /** A tool that the list a call rests on shows to the model only is refused as unknown; without a list, the call is
      refused as unavailable. */
  lemma RefusedAs(cfg: Config, now: int, es: seq<Event>, i: nat)
    requires var w := Run(cfg, Fresh(now), es); i < |w.calls| && w.calls[i].state.Done?
    requires Route(Run(cfg, Fresh(now), es).calls[i].state.lookup) != Relay
    ensures var w := Run(cfg, Fresh(now), es); var c := w.calls[i];
            var list := Source(cfg, Latest(Before(w.history, c.successes), c.key), c);
            Route(c.state.lookup) == if list.None? then RefuseUnavailable else RefuseUnknownTool
  {
    AnsweredByItsList(cfg, now, es, i);
  }

  predicate LastOfItsName(tools: seq<Tool>, k: nat) {
    k < |tools| && forall j :: k < j < |tools| ==> tools[j].name != tools[k].name
  }

  ghost predicate Says(tools: seq<Tool>, name: string, v: Declared) {
    exists k: nat :: LastOfItsName(tools, k) && tools[k] == Tool(name, v)
  }

  /** A list's map says of a name what its last tool of that name declares, and has no other names. */
  lemma {:induction false} LastOfItsNameWins(tools: seq<Tool>, name: string, v: Declared)
    ensures (name in ToolMap(tools) && ToolMap(tools)[name] == v) <==> Says(tools, name, v)
    decreases |tools|
  {
    if tools == [] {
    } else {
      var front, t := tools[..|tools| - 1], tools[|tools| - 1];
      LastOfItsNameWins(front, name, v);
      SaysSnoc(front, t, name, v);
      assert tools == front + [t];
    }
  }

  lemma SaysSnoc(front: seq<Tool>, t: Tool, name: string, v: Declared)
    ensures Says(front + [t], name, v) <==> if t.name == name then t.visibility == v else Says(front, name, v)
  {
    var tools := front + [t];
    assert LastOfItsName(tools, |front|);
    forall k: nat | k < |front|
      ensures LastOfItsName(tools, k) <==> LastOfItsName(front, k) && t.name != front[k].name
    {
      assert forall j :: 0 <= j < |front| ==> tools[j] == front[j];
      assert tools[|front|] == t;
    }
    if Says(tools, name, v) {
      var k: nat :| LastOfItsName(tools, k) && tools[k] == Tool(name, v);
      assert k < |front| ==> front[k] == tools[k];
    }
    if Says(front, name, v) {
      var k: nat :| LastOfItsName(front, k) && front[k] == Tool(name, v);
      assert tools[k] == front[k];
    }
  }

  /** What each event does to each read: it stores its list, dated now, or its error, and then leaves `inflight`. */
  lemma ReadMoves(cfg: Config, w: World, e: Event, i: nat)
    requires i < |w.started|
    ensures i < |Step(cfg, w, e).started|
    ensures var p, q := w.started[i], Step(cfg, w, e).started[i];
            && q.key == p.key
            && q.phase == if e.ReadOk? && e.read == i && p.phase.Pending?
                          then Stored(Good(Entry(ToolMap(e.tools), w.now)))
                          else if e.ReadFails? && e.read == i && p.phase.Pending? then Stored(Failed(e.error))
                          else if e == LeavesInflight(i) && p.phase.Stored? then Settled(p.phase.result)
                          else p.phase
  {
  }

  /** A waiting call goes on exactly when its read has left `inflight`, and hears of what that read gave. */
  lemma CallHears(cfg: Config, w: World, e: Event, i: nat)
    requires i < |w.calls|
    ensures var c, d := w.calls[i], Step(cfg, w, e).calls[i];
            && (d.key, d.name, d.successes, d.beganAt) == (c.key, c.name, c.successes, c.beganAt)
            && if e == Resumes(i) && c.state.Waiting? && c.state.await.read < |w.started|
                  && w.started[c.state.await.read].phase.Settled?
               then d.heard == c.heard + [Heard(w.started[c.state.await.read].phase.result, w.now)]
               else d == c
  {
  }

  /** A read that succeeds is the server's list from then on, dated now, and touches no other server's. */
  lemma ReadIsLatest(cfg: Config, w: World, i: nat, tools: seq<Tool>, key: string)
    requires Inv(w) && i < |w.started| && w.started[i].phase.Pending?
    ensures var w' := Step(cfg, w, ReadOk(i, tools));
            Latest(w'.history, key) == Get(w'.cache.entries, key)
            == if key == w.started[i].key then Some(Entry(ToolMap(tools), w.now)) else Latest(w.history, key)
  {
    LatestSnoc(w.history, Success(w.started[i].key, Entry(ToolMap(tools), w.now)));
    ReadOkKeepsInv(cfg, w, i, tools);
  }

  // ---- Spacing of the reads ----

  /** The microtask order: the clock does not move while a stored read still has waiters to resume. */
  ghost predicate Quiescent(w: World) {
    && (forall i :: 0 <= i < |w.started| ==> !w.started[i].phase.Stored?)
    && (forall i :: 0 <= i < |w.calls| ==> !CanResume(w, i))
  }

  ghost predicate MicrotaskOrder(cfg: Config, w: World, es: seq<Event>) {
    es == [] ||
    (&& MicrotaskOrder(cfg, w, es[..|es| - 1])
     && (es[|es| - 1].Tick? ==> Quiescent(Run(cfg, w, es[..|es| - 1]))))
  }

  function Min(a: int, b: int): int { if a < b then a else b }

  ghost predicate SpacedFrom(cfg: Config, h: seq<Success>, key: string, startedAt: int) {
    forall k :: 0 <= k < |h| && h[k].key == key ==> startedAt - h[k].entry.readAt >= Min(cfg.ttlMs, cfg.refreshMinMs)
  }

  ghost predicate HistoryTime(w: World) {
    && (forall k :: 0 <= k < |w.history| ==> w.history[k].entry.readAt <= w.now)
    && (forall j, k :: 0 <= j <= k < |w.history| ==> w.history[j].entry.readAt <= w.history[k].entry.readAt)
  }

  /** A good result that is stored, or that a waiter is about to see, was read at this very moment. */
  ghost predicate ResultsAreNew(w: World) {
    && (forall i :: 0 <= i < |w.started| && w.started[i].phase.Stored? && w.started[i].phase.result.Good? ==>
          w.started[i].phase.result.entry.readAt == w.now)
    && (forall i :: 0 <= i < |w.calls| && CanResume(w, i)
                    && w.started[w.calls[i].state.await.read].phase.result.Good? ==>
          w.started[w.calls[i].state.await.read].phase.result.entry.readAt == w.now)
  }

  ghost predicate ReadSpaced(cfg: Config, h: seq<Success>, r: Read) {
    r.successes <= |h| && SpacedFrom(cfg, h[..r.successes], r.key, r.startedAt)
  }

  ghost predicate AllSpaced(cfg: Config, w: World) {
    forall i :: 0 <= i < |w.started| ==> ReadSpaced(cfg, w.history, w.started[i])
  }

  ghost predicate TimeOk(cfg: Config, w: World) { HistoryTime(w) && ResultsAreNew(w) && AllSpaced(cfg, w) }

  lemma {:induction false} LatestIsLast(h: seq<Success>, key: string)
    requires forall j, k :: 0 <= j <= k < |h| ==> h[j].entry.readAt <= h[k].entry.readAt
    ensures forall k :: 0 <= k < |h| && h[k].key == key ==>
              Latest(h, key).Some? && h[k].entry.readAt <= Latest(h, key).value.readAt
    decreases |h|
  {
    if h == [] {
    } else {
      LatestIsLast(h[..|h| - 1], key);
    }
  }

  /** Whenever a lookup starts a read, enough time has passed since every success of that server. */
  lemma StartedIsSpaced(cfg: Config, w: World, key: string, e: Entry)
    requires HistoryTime(w)
    requires Latest(w.history, key) == Some(e) || e.readAt == w.now
    requires w.now - e.readAt >= cfg.ttlMs || w.now - e.readAt >= cfg.refreshMinMs
    ensures SpacedFrom(cfg, w.history, key, w.now)
  {
    LatestIsLast(w.history, key);
  }

  lemma WithCacheTime(cfg: Config, w: World, c: Cache, key: string)
    requires AllSpaced(cfg, w)
    requires c.nextRead != w.cache.nextRead ==> SpacedFrom(cfg, w.history, key, w.now)
    ensures AllSpaced(cfg, WithCache(w, c, key))
  {
    assert w.history[..|w.history|] == w.history;
  }

  lemma BeginTime(cfg: Config, w: World, key: string, name: string)
    requires Inv(w) && HistoryTime(w) && AllSpaced(cfg, w)
    ensures AllSpaced(cfg, Step(cfg, w, LookupCall(key, name)))
  {
    var entry := Get(w.cache.entries, key);
    LatestIsRead(w.history, key);
    var (c, o) := Begin(cfg, w.cache, key, name, w.now);
    if entry.Some? && c.nextRead != w.cache.nextRead { StartedIsSpaced(cfg, w, key, entry.value); }
    WithCacheTime(cfg, w, c, key);
  }

  lemma ResumeTime(cfg: Config, w: World, i: nat)
    requires Inv(w) && TimeOk(cfg, w) && CanResume(w, i)
    ensures AllSpaced(cfg, Step(cfg, w, Resumes(i)))
  {
    var call := w.calls[i];
    var r := w.started[call.state.await.read].phase.result;
    var (c, o) := Resume(cfg, w.cache, call.key, call.name, call.state.await, r, w.now);
    if c.nextRead != w.cache.nextRead { StartedIsSpaced(cfg, w, call.key, r.entry); }
    WithCacheTime(cfg, w, c, call.key);
  }

  lemma ReadOkTime(cfg: Config, w: World, i: nat, tools: seq<Tool>)
    requires AllSpaced(cfg, w) && i < |w.started| && w.started[i].phase.Pending?
    ensures AllSpaced(cfg, Step(cfg, w, ReadOk(i, tools)))
  {
    var w' := Step(cfg, w, ReadOk(i, tools));
    forall k | 0 <= k < |w'.started| ensures ReadSpaced(cfg, w'.history, w'.started[k]) {
      assert ReadSpaced(cfg, w.history, w.started[k]);
      assert w'.history[..w.started[k].successes] == w.history[..w.started[k].successes];
    }
  }

  lemma StepKeepsSpacing(cfg: Config, w: World, e: Event)
    requires Inv(w) && TimeOk(cfg, w)
    ensures AllSpaced(cfg, Step(cfg, w, e))
  {
    match e
    case Tick(ms) =>
    case LookupCall(key, name) => BeginTime(cfg, w, key, name);
    case ReadOk(i, tools) => if i < |w.started| && w.started[i].phase.Pending? { ReadOkTime(cfg, w, i, tools); }
    case ReadFails(i, error) =>
    case LeavesInflight(i) =>
    case Resumes(i) => if CanResume(w, i) { ResumeTime(cfg, w, i); }
  }

  /** A call that waits for a read still in flight cannot resume. */
  lemma NewWaitCannotResume(w: World, c: Cache, key: string, w': World, i: nat)
    requires Inv(w) && c == Reread(w.cache, key).0
    requires w' == WithCache(w, c, key).(calls := w'.calls) && i < |w'.calls|
    requires w'.calls[i].state.Waiting? && w'.calls[i].state.await.read == Reread(w.cache, key).1
    ensures !CanResume(w', i)
  {
  }

  lemma LookupKeepsResults(cfg: Config, w: World, key: string, name: string)
    requires Inv(w) && ResultsAreNew(w)
    ensures ResultsAreNew(Step(cfg, w, LookupCall(key, name)))
  {
    var w' := Step(cfg, w, LookupCall(key, name));
    forall i | 0 <= i < |w'.calls| && CanResume(w', i) ensures i < |w.calls| && CanResume(w, i) {
      if i == |w.calls| { NewWaitCannotResume(w, Begin(cfg, w.cache, key, name, w.now).0, key, w', i); }
      assert CallOk(w, w.calls[i]);
    }
  }

  lemma ResumeKeepsResults(cfg: Config, w: World, j: nat)
    requires Inv(w) && ResultsAreNew(w) && CanResume(w, j)
    ensures ResultsAreNew(Step(cfg, w, Resumes(j)))
  {
    var w' := Step(cfg, w, Resumes(j));
    var c := w.calls[j];
    forall i | 0 <= i < |w'.calls| && CanResume(w', i) ensures CanResume(w, i) && w'.calls[i] == w.calls[i] {
      if i == j {
        NewWaitCannotResume(w, w'.cache, c.key, w', i);
      }
      assert CallOk(w, w.calls[i]);
    }
  }

  lemma StepKeepsResults(cfg: Config, w: World, e: Event)
    requires Inv(w) && ResultsAreNew(w) && (e.Tick? ==> Quiescent(w))
    ensures ResultsAreNew(Step(cfg, w, e))
  {
    match e
    case Tick(ms) =>
      assert forall i :: 0 <= i < |w.calls| && CanResume(Step(cfg, w, e), i) ==> CanResume(w, i);
    case LookupCall(key, name) => LookupKeepsResults(cfg, w, key, name);
    case ReadOk(i, tools) =>
    case ReadFails(i, error) =>
    case LeavesInflight(i) =>
    case Resumes(i) => if CanResume(w, i) { ResumeKeepsResults(cfg, w, i); }
  }

  lemma StepKeepsHistory(cfg: Config, w: World, e: Event)
    requires HistoryTime(w)
    ensures HistoryTime(Step(cfg, w, e))
  {
  }

  lemma {:induction false} RunKeepsTime(cfg: Config, now: int, es: seq<Event>)
    requires MicrotaskOrder(cfg, Fresh(now), es)
    ensures Inv(Run(cfg, Fresh(now), es)) && TimeOk(cfg, Run(cfg, Fresh(now), es))
    decreases |es|
  {
    RunKeepsInv(cfg, now, es);
    if es == [] {
    } else {
      RunKeepsTime(cfg, now, es[..|es| - 1]);
      var w := Run(cfg, Fresh(now), es[..|es| - 1]);
      StepKeepsHistory(cfg, w, es[|es| - 1]);
      StepKeepsResults(cfg, w, es[|es| - 1]);
      StepKeepsSpacing(cfg, w, es[|es| - 1]);
    }
  }

  /** In microtask order, a read that follows a successful one starts at least min(ttl, refreshMin) after it. */
  lemma ReadsAreSpaced(cfg: Config, now: int, es: seq<Event>, i: nat, k: nat)
    requires MicrotaskOrder(cfg, Fresh(now), es)
    requires var w := Run(cfg, Fresh(now), es);
             i < |w.started| && k < w.started[i].successes && k < |w.history| && w.history[k].key == w.started[i].key
    ensures var w := Run(cfg, Fresh(now), es);
            w.started[i].startedAt - w.history[k].entry.readAt >= Min(cfg.ttlMs, cfg.refreshMinMs)
  {
    RunKeepsTime(cfg, now, es);
    var w := Run(cfg, Fresh(now), es);
    assert ReadSpaced(cfg, w.history, w.started[i]);
    assert w.history[..w.started[i].successes][k] == w.history[k];
  }

  lemma RunSnoc(cfg: Config, w: World, es: seq<Event>, e: Event)
    ensures Run(cfg, w, es + [e]) == Step(cfg, Run(cfg, w, es), e)
    ensures !e.Tick? ==> (MicrotaskOrder(cfg, w, es + [e]) <==> MicrotaskOrder(cfg, w, es))
  {
    assert (es + [e])[..|es|] == es;
  }

  /** Only successes space the reads: after a failed one the next lookup starts another at once. */
  lemma FailedReadsAreNotSpaced(cfg: Config, now: int, key: string, name: string, error: string)
    ensures exists es :: MicrotaskOrder(cfg, Fresh(now), es)
              && var w := Run(cfg, Fresh(now), es);
                 |w.started| == 2 && w.started[0].startedAt == w.started[1].startedAt == now
                 && w.started[0].key == w.started[1].key == key
  {
    var a := [LookupCall(key, name)];
    var b := a + [ReadFails(0, error)];
    var c := b + [LeavesInflight(0)];
    var d := c + [LookupCall(key, name)];
    assert a == [] + [LookupCall(key, name)];
    RunSnoc(cfg, Fresh(now), [], LookupCall(key, name));
    RunSnoc(cfg, Fresh(now), a, ReadFails(0, error));
    RunSnoc(cfg, Fresh(now), b, LeavesInflight(0));
    RunSnoc(cfg, Fresh(now), c, LookupCall(key, name));
    var u := Run(cfg, Fresh(now), a);
    assert u.started == [Read(key, now, 0, Pending)] && u.cache.inflight == map[key := 0] && u.cache.entries == map[];
    var v := Run(cfg, Fresh(now), c);
    assert v.cache.inflight == map[] && v.cache.entries == map[];
    assert |Run(cfg, Fresh(now), d).started| == 2;
  }

  // ---- The cache object ----

  class ToolVisibilityCache {
    const config: Config
    var entries: map<string, Entry>
    var inflight: map<string, nat>
    var nextRead: nat

    ghost function View(): Cache reads this { Cache(entries, inflight, nextRead) }

    constructor (config: Config)
      ensures View() == Cache(map[], map[], 0) && this.config == config
    {
      this.config := config;
      entries, inflight, nextRead := map[], map[], 0;
    }

    method StartRead(key: string) returns (read: nat)
      modifies this
      ensures (View(), read) == Reread(old(View()), key)
    {
      if key in inflight { return inflight[key]; }
      read := nextRead;
      nextRead := nextRead + 1;
      inflight := inflight[key := read];
    }

    /** The read's `then`: the entry is stored before anything else runs. */
    method OnTools(key: string, tools: seq<Tool>, now: int)
      modifies this
      ensures View() == old(View()).(entries := old(entries)[key := Entry(ToolMap(tools), now)])
    {
      var byName: map<string, Declared> := map[];
      for i := 0 to |tools|
        invariant byName == ToolMap(tools[..i])
      {
        assert tools[..i + 1][..i] == tools[..i];
        byName := byName[tools[i].name := tools[i].visibility];
      }
      assert tools[..|tools|] == tools;
      entries := entries[key := Entry(byName, now)];
    }

    /** The read's `finally`. */
    method OnSettled(key: string)
      modifies this
      ensures View() == old(View()).(inflight := old(inflight) - {key})
    {
      inflight := inflight - {key};
    }

    /** lookup up to its first await, or its answer. */
    method BeginLookup(key: string, name: string, now: int) returns (o: Outcome)
      modifies this
      ensures (View(), o) == Begin(config, old(View()), key, name, now)
    {
      var entry := if key in entries then Some(entries[key]) else None;
      if entry.None? || now - entry.value.readAt >= config.ttlMs {
        var read := StartRead(key);
        return Waits(FirstRead(read, entry));
      }
      o := AnswerFrom(key, name, entry.value, now);
    }

    method AnswerFrom(key: string, name: string, entry: Entry, now: int) returns (o: Outcome)
      modifies this
      ensures (View(), o) == FromEntry(config, old(View()), key, name, entry, now)
    {
      if name in entry.tools { return Answered(Listed(entry.tools[name])); }
      if now - entry.readAt < config.refreshMinMs { return Answered(Unlisted); }
      var read := StartRead(key);
      return Waits(SecondRead(read));
    }

    /** lookup from an await to its next one, or its answer. */
    method ResumeLookup(key: string, name: string, await: Await, read: ReadResult, now: int) returns (o: Outcome)
      modifies this
      ensures (View(), o) == Resume(config, old(View()), key, name, await, read, now)
    {
      if await.FirstRead? {
        if read.Good? {
          o := AnswerFrom(key, name, read.entry, now);
        } else if await.entry.None? {
          return Answered(Unavailable(read.error));
        } else if name !in await.entry.value.tools {
          return Answered(Unavailable(read.error));
        } else {
          return Answered(Listed(await.entry.value.tools[name]));
        }
      } else if read.Failed? {
        return Answered(Unavailable(read.error));
      } else if name in read.entry.tools {
        return Answered(Listed(read.entry.tools[name]));
      } else {
        return Answered(Unlisted);
      }
    }
  }
}
