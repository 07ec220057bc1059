/** The caching gadget catalog: for each app one fetch in flight and a TTL, over any inner adapter.
    Code between two awaits is one step. */
module GadgetCatalog {
  import opened Options

  /** A catalog as the inner adapter returns it. */
  type Descriptors = seq<string>

  datatype CacheEntry = CacheEntry(entries: Descriptors, expiresAt: int, fetch: nat)

  /** fetch and inflight name inner calls by number; an entry remembers which one filled it. */
  datatype Cache = Cache(cache: map<string, CacheEntry>, inflight: map<string, nat>, nextFetch: nat)

  /** How list answers up to its first await. */
  datatype Outcome = Hit(entries: Descriptors, fetch: nat) | Joins(fetch: nat)

  /** Calls the inner adapter. A throw out of that call runs the `finally` at once, so the key is deleted first and
      set afterwards. */
  function Launched(c: Cache, app: string, throws: bool): Cache {
    var tried := if throws then FetchFailed(c, app) else c;
    tried.(inflight := tried.inflight[app := c.nextFetch], nextFetch := c.nextFetch + 1)
  }

  function Listed(c: Cache, app: string, now: int, throws: bool): (Cache, Outcome) {
    if app in c.cache && c.cache[app].expiresAt > now then (c, Hit(c.cache[app].entries, c.cache[app].fetch))
    else if app in c.inflight then (c, Joins(c.inflight[app]))
    else (Launched(c, app, throws), Joins(c.nextFetch))
  }

  function Fetched(c: Cache, app: string, fetch: nat, entries: Descriptors, ttlMs: int, now: int): Cache {
    var filled := if ttlMs > 0 then c.(cache := c.cache[app := CacheEntry(entries, now + ttlMs, fetch)]) else c;
    filled.(inflight := c.inflight - {app})
  }

  function FetchFailed(c: Cache, app: string): Cache { c.(inflight := c.inflight - {app}) }

  function Invalidated(c: Cache, app: Option<string>): Cache {
    c.(cache := if app.None? then map[] else c.cache - {app.value})
  }

  // ---- Runs ----

  datatype Phase = Pending | Ok(entries: Descriptors, at: int) | Rejected

  datatype Fetch = Fetch(app: string, phase: Phase)

  datatype CallState =
    | Waiting(fetch: nat)
    | Answered(entries: Descriptors, fetch: nat, hitAt: Option<int>)
    | Threw(fetch: nat)

  datatype Call = Call(app: string, state: CallState)

  datatype World = World(cache: Cache, now: int, fetches: seq<Fetch>, calls: seq<Call>)

  /** syncThrow: the inner adapter throws while it is called, instead of returning a promise. */
  datatype Event =
    | Tick(ms: nat)
    | List(app: string, syncThrow: bool)
    | FetchOk(fetch: nat, entries: Descriptors)
    | FetchRejects(fetch: nat)
    | Resumes(call: nat)
    | Invalidate(target: Option<string>)

  function Step(ttlMs: int, w: World, e: Event): World {
    match e
    case Tick(ms) => w.(now := w.now + ms)
    case List(app, syncThrow) =>
      var (c, o) := Listed(w.cache, app, w.now, syncThrow);
      var fetches := if c.nextFetch == w.cache.nextFetch then w.fetches
                     else w.fetches + [Fetch(app, if syncThrow then Rejected else Pending)];
      var state := if o.Hit? then Answered(o.entries, o.fetch, Some(w.now)) else Waiting(o.fetch);
      w.(cache := c, fetches := fetches, calls := w.calls + [Call(app, state)])
    case FetchOk(i, entries) =>
      if i >= |w.fetches| || !w.fetches[i].phase.Pending? then w
      else w.(cache := Fetched(w.cache, w.fetches[i].app, i, entries, ttlMs, w.now),
              fetches := w.fetches[i := w.fetches[i].(phase := Ok(entries, w.now))])
    case FetchRejects(i) =>
      if i >= |w.fetches| || !w.fetches[i].phase.Pending? then w
      else w.(cache := FetchFailed(w.cache, w.fetches[i].app),
              fetches := w.fetches[i := w.fetches[i].(phase := Rejected)])
    case Resumes(i) =>
      if i >= |w.calls| || !w.calls[i].state.Waiting? || w.calls[i].state.fetch >= |w.fetches| then w
      else
        var f := w.calls[i].state.fetch;
        var p := w.fetches[f].phase;
        if p.Pending? then w
        else w.(calls := w.calls[i := w.calls[i].(state := if p.Ok? then Answered(p.entries, f, None) else Threw(f))])
    case Invalidate(target) => w.(cache := Invalidated(w.cache, target))
  }

  function Fresh(now: int): World { World(Cache(map[], map[], 0), now, [], []) }

  function Run(ttlMs: int, w: World, es: seq<Event>): World {
    if es == [] then w else Step(ttlMs, Run(ttlMs, w, es[..|es| - 1]), es[|es| - 1])
  }

  // ---- What holds in every run ----

  ghost predicate InflightOk(w: World) {
    && w.cache.nextFetch == |w.fetches|
    && (forall app :: app in w.cache.inflight ==>
          && w.cache.inflight[app] < |w.fetches|
          && w.fetches[w.cache.inflight[app]].app == app
          && !w.fetches[w.cache.inflight[app]].phase.Ok?)
    && (forall i :: 0 <= i < |w.fetches| && w.fetches[i].phase.Pending? ==>
          w.fetches[i].app in w.cache.inflight && w.cache.inflight[w.fetches[i].app] == i)
  }

  ghost predicate CacheOk(ttlMs: int, w: World) {
    forall app :: app in w.cache.cache ==>
      var e := w.cache.cache[app];
      && e.fetch < |w.fetches| && w.fetches[e.fetch].app == app
      && w.fetches[e.fetch].phase == Ok(e.entries, e.expiresAt - ttlMs)
  }

  /** The answer is what the inner call returned for this app, and a hit's call completed less than ttl before. */
  ghost predicate CallOk(ttlMs: int, fetches: seq<Fetch>, c: Call) {
    && c.state.fetch < |fetches| && fetches[c.state.fetch].app == c.app
    && match c.state
       case Waiting(_) => true
       case Answered(entries, f, hitAt) =>
         && fetches[f].phase.Ok? && fetches[f].phase.entries == entries
         && (hitAt.Some? ==> hitAt.value - fetches[f].phase.at < ttlMs)
       case Threw(f) => fetches[f].phase.Rejected?
  }

  ghost predicate CallsOk(ttlMs: int, w: World) {
    forall i :: 0 <= i < |w.calls| ==> CallOk(ttlMs, w.fetches, w.calls[i])
  }

  ghost predicate Inv(ttlMs: int, w: World) { CacheSide(ttlMs, w) && CallsOk(ttlMs, w) }

  /** Settled fetches keep their result and no fetch changes its app. */
  ghost predicate FetchesGrow(a: seq<Fetch>, b: seq<Fetch>) {
    && |a| <= |b|
    && forall i :: 0 <= i < |a| ==> a[i].app == b[i].app && (!a[i].phase.Pending? ==> a[i] == b[i])
  }

  lemma CallsCarry(ttlMs: int, w: World, fetches: seq<Fetch>)
    requires CallsOk(ttlMs, w) && FetchesGrow(w.fetches, fetches)
    ensures forall i :: 0 <= i < |w.calls| ==> CallOk(ttlMs, fetches, w.calls[i])
  {
    forall i | 0 <= i < |w.calls| ensures CallOk(ttlMs, fetches, w.calls[i]) {
      assert CallOk(ttlMs, w.fetches, w.calls[i]);
    }
  }

  ghost predicate CacheSide(ttlMs: int, w: World) { InflightOk(w) && CacheOk(ttlMs, w) }

  lemma ListKeepsCache(ttlMs: int, w: World, app: string, syncThrow: bool)
    requires CacheSide(ttlMs, w)
    ensures var g := Step(ttlMs, w, List(app, syncThrow)); CacheSide(ttlMs, g) && FetchesGrow(w.fetches, g.fetches)
  {
    ListKeepsInflight(w, Step(ttlMs, w, List(app, syncThrow)), app);
  }

  lemma ListKeepsInflight(w: World, g: World, app: string)
    requires InflightOk(w)
    requires if g.cache.nextFetch == w.cache.nextFetch
             then g.fetches == w.fetches && g.cache.inflight == w.cache.inflight
             else app !in w.cache.inflight && g.cache.nextFetch == |g.fetches|
                  && g.cache.inflight == w.cache.inflight[app := |w.fetches|]
                  && (g.fetches == w.fetches + [Fetch(app, Pending)] || g.fetches == w.fetches + [Fetch(app, Rejected)])
    ensures InflightOk(g)
  {
  }

  lemma FetchOkKeepsCache(ttlMs: int, w: World, i: nat, entries: Descriptors)
    requires CacheSide(ttlMs, w) && i < |w.fetches| && w.fetches[i].phase.Pending?
    ensures var g := Step(ttlMs, w, FetchOk(i, entries)); CacheSide(ttlMs, g) && FetchesGrow(w.fetches, g.fetches)
  {
  }

  lemma FetchRejectsKeepsCache(ttlMs: int, w: World, i: nat)
    requires CacheSide(ttlMs, w) && i < |w.fetches| && w.fetches[i].phase.Pending?
    ensures var g := Step(ttlMs, w, FetchRejects(i)); CacheSide(ttlMs, g) && FetchesGrow(w.fetches, g.fetches)
  {
  }

  lemma StepKeepsCache(ttlMs: int, w: World, e: Event)
    requires CacheSide(ttlMs, w)
    ensures var g := Step(ttlMs, w, e); CacheSide(ttlMs, g) && FetchesGrow(w.fetches, g.fetches)
  {
    match e
    case Tick(ms) =>
    case List(app, syncThrow) => ListKeepsCache(ttlMs, w, app, syncThrow);
    case FetchOk(i, entries) =>
      if i < |w.fetches| && w.fetches[i].phase.Pending? { FetchOkKeepsCache(ttlMs, w, i, entries); }
    case FetchRejects(i) => if i < |w.fetches| && w.fetches[i].phase.Pending? { FetchRejectsKeepsCache(ttlMs, w, i); }
    case Resumes(i) =>
    case Invalidate(target) =>
  }

  lemma ListKeepsCalls(ttlMs: int, w: World, app: string, syncThrow: bool)
    requires Inv(ttlMs, w)
    ensures CallsOk(ttlMs, Step(ttlMs, w, List(app, syncThrow)))
  {
    var g := Step(ttlMs, w, List(app, syncThrow));
    StepKeepsCache(ttlMs, w, List(app, syncThrow));
    CallsCarry(ttlMs, w, g.fetches);
    assert CallOk(ttlMs, g.fetches, g.calls[|w.calls|]);
  }

  lemma StepKeepsInv(ttlMs: int, w: World, e: Event)
    requires Inv(ttlMs, w)
    ensures Inv(ttlMs, Step(ttlMs, w, e))
  {
    StepKeepsCache(ttlMs, w, e);
    CallsCarry(ttlMs, w, Step(ttlMs, w, e).fetches);
    if e.List? { ListKeepsCalls(ttlMs, w, e.app, e.syncThrow); }
  }

  lemma {:induction false} RunKeepsInv(ttlMs: int, w: World, es: seq<Event>)
    requires Inv(ttlMs, w)
    ensures Inv(ttlMs, Run(ttlMs, w, es))
    decreases |es|
  {
    if es == [] {
    } else {
      RunKeepsInv(ttlMs, w, es[..|es| - 1]);
      StepKeepsInv(ttlMs, Run(ttlMs, w, es[..|es| - 1]), es[|es| - 1]);
    }
  }

  /** At most one inner fetch per app runs at a time. */
  lemma OneFetchPerApp(ttlMs: int, now: int, es: seq<Event>, i: nat, j: nat)
    requires var w := Run(ttlMs, Fresh(now), es);
             i < |w.fetches| && j < |w.fetches| && w.fetches[i].app == w.fetches[j].app
             && w.fetches[i].phase.Pending? && w.fetches[j].phase.Pending?
    ensures i == j
  {
    RunKeepsInv(ttlMs, Fresh(now), es);
  }

  /** Every answer for an app is what an inner call for that app returned, joined or completed less than ttl
      ago; a rejected call is rejected by an inner call for that app. */
  lemma AnswersAgreeWithInner(ttlMs: int, now: int, es: seq<Event>, i: nat)
    requires i < |Run(ttlMs, Fresh(now), es).calls|
    ensures var w := Run(ttlMs, Fresh(now), es); CallOk(ttlMs, w.fetches, w.calls[i])
  {
    RunKeepsInv(ttlMs, Fresh(now), es);
  }

  // ---- After invalidate ----

  /** From fetch number k on, nothing older can answer a later call for the app. */
  ghost predicate OnlySince(w: World, app: string, k: nat, calls: nat) {
    && k <= w.cache.nextFetch
    && (app in w.cache.cache ==> w.cache.cache[app].fetch >= k)
    && (app in w.cache.inflight ==> w.cache.inflight[app] >= k)
    && (forall i :: calls <= i < |w.calls| && w.calls[i].app == app ==> w.calls[i].state.fetch >= k)
  }

  lemma StepKeepsSince(ttlMs: int, w: World, e: Event, app: string, k: nat, calls: nat)
    requires Inv(ttlMs, w) && OnlySince(w, app, k, calls) && calls <= |w.calls|
    ensures OnlySince(Step(ttlMs, w, e), app, k, calls) && |w.calls| <= |Step(ttlMs, w, e).calls|
  {
  }

  lemma {:induction false} RunKeepsSince(ttlMs: int, w: World, es: seq<Event>, app: string, k: nat, calls: nat)
    requires Inv(ttlMs, w) && OnlySince(w, app, k, calls) && calls <= |w.calls|
    ensures OnlySince(Run(ttlMs, w, es), app, k, calls) && calls <= |Run(ttlMs, w, es).calls|
    decreases |es|
  {
    if es == [] {
    } else {
      RunKeepsSince(ttlMs, w, es[..|es| - 1], app, k, calls);
      RunKeepsInv(ttlMs, w, es[..|es| - 1]);
      StepKeepsSince(ttlMs, Run(ttlMs, w, es[..|es| - 1]), es[|es| - 1], app, k, calls);
    }
  }

  /** invalidate(app) or invalidate(), as an operator calls it. */
  predicate Drops(target: Option<string>, app: string) { target == None || target == Some(app) }

  /** Whatever happens after the invalidate, a list call for the app made after it is settled by an inner call
      that started after it. */
  ghost predicate LaterAnswersAreNew(ttlMs: int, w: World, target: Option<string>, app: string) {
    forall es, i :: LaterAnswerIsNew(ttlMs, w, target, app, es, i)
  }

  ghost predicate LaterAnswerIsNew(ttlMs: int, w: World, target: Option<string>, app: string, es: seq<Event>, i: nat) {
    var g := Run(ttlMs, Step(ttlMs, w, Invalidate(target)), es);
    |w.calls| <= i < |g.calls| && g.calls[i].app == app ==> g.calls[i].state.fetch >= |w.fetches|
  }

  /** That holds exactly when no fetch for the app is in flight at the invalidate. */
  lemma InvalidateIff(ttlMs: int, now: int, before: seq<Event>, target: Option<string>, app: string)
    requires Drops(target, app)
    ensures var w := Run(ttlMs, Fresh(now), before);
            LaterAnswersAreNew(ttlMs, w, target, app) <==> app !in w.cache.inflight
  {
    RunKeepsInv(ttlMs, Fresh(now), before);
    var w := Run(ttlMs, Fresh(now), before);
    var v := Step(ttlMs, w, Invalidate(target));
    StepKeepsInv(ttlMs, w, Invalidate(target));
    if app !in w.cache.inflight {
      forall es, i: nat ensures LaterAnswerIsNew(ttlMs, w, target, app, es, i) {
        RunKeepsSince(ttlMs, v, es, app, |w.fetches|, |w.calls|);
      }
    } else {
      JoiningIsOld(ttlMs, w, target, app);
    }
  }

  /** With a fetch in flight, the next list call joins it. */
  lemma JoiningIsOld(ttlMs: int, w: World, target: Option<string>, app: string)
    requires Inv(ttlMs, w) && Drops(target, app) && app in w.cache.inflight
    ensures !LaterAnswerIsNew(ttlMs, w, target, app, [List(app, false)], |w.calls|)
  {
    var v := Step(ttlMs, w, Invalidate(target));
    assert [List(app, false)][..0] == [];
    assert Run(ttlMs, v, [List(app, false)]) == Step(ttlMs, v, List(app, false));
    assert Listed(v.cache, app, v.now, false).1 == Joins(w.cache.inflight[app]);
  }

  // ---- An inner adapter that throws synchronously ----

  /** The in-flight promise for the app is a settled rejection. */
  ghost predicate Stuck(w: World, app: string) {
    && app in w.cache.inflight && w.cache.inflight[app] < |w.fetches|
    && w.fetches[w.cache.inflight[app]].phase.Rejected?
  }

  /** A list call for the app would call the inner adapter now. */
  predicate Launches(w: World, app: string) {
    !(app in w.cache.cache && w.cache.cache[app].expiresAt > w.now) && app !in w.cache.inflight
  }

  /** Some list call for the app called the inner adapter, which threw instead of returning a promise. */
  ghost predicate ThrewIn(ttlMs: int, w: World, es: seq<Event>, app: string) {
    exists k :: 0 <= k < |es| && es[k] == List(app, true) && Launches(Run(ttlMs, w, es[..k]), app)
  }

  lemma StuckStep(ttlMs: int, w: World, e: Event, app: string)
    requires Inv(ttlMs, w)
    ensures Stuck(Step(ttlMs, w, e), app) <==> Stuck(w, app) || (e == List(app, true) && Launches(w, app))
  {
  }

  lemma ThrewInSnoc(ttlMs: int, w: World, es: seq<Event>, app: string)
    requires es != []
    ensures var pre := es[..|es| - 1];
            ThrewIn(ttlMs, w, es, app) <==>
              ThrewIn(ttlMs, w, pre, app) || (es[|es| - 1] == List(app, true) && Launches(Run(ttlMs, w, pre), app))
  {
    var pre := es[..|es| - 1];
    assert forall k :: 0 <= k < |pre| ==> es[k] == pre[k] && es[..k] == pre[..k];
  }

  /** Over all runs, a failure is kept for an app exactly when the inner adapter once threw synchronously for it. */
  lemma {:induction false} FailureIsCachedIff(ttlMs: int, now: int, es: seq<Event>, app: string)
    ensures Stuck(Run(ttlMs, Fresh(now), es), app) <==> ThrewIn(ttlMs, Fresh(now), es, app)
    decreases |es|
  {
    if es == [] {
    } else {
      var pre := es[..|es| - 1];
      FailureIsCachedIff(ttlMs, now, pre, app);
      RunKeepsInv(ttlMs, Fresh(now), pre);
      StuckStep(ttlMs, Run(ttlMs, Fresh(now), pre), es[|es| - 1], app);
      ThrewInSnoc(ttlMs, Fresh(now), es, app);
    }
  }

  /** With an inner adapter that returns promises, what is in flight is always a pending fetch. */
  lemma InflightIsPending(ttlMs: int, now: int, es: seq<Event>)
    requires forall k :: 0 <= k < |es| && es[k].List? ==> !es[k].syncThrow
    ensures var w := Run(ttlMs, Fresh(now), es);
            forall app :: app in w.cache.inflight ==>
              w.cache.inflight[app] < |w.fetches| && w.fetches[w.cache.inflight[app]] == Fetch(app, Pending)
  {
    RunKeepsInv(ttlMs, Fresh(now), es);
    var w := Run(ttlMs, Fresh(now), es);
    forall app | app in w.cache.inflight ensures w.fetches[w.cache.inflight[app]] == Fetch(app, Pending) {
      FailureIsCachedIff(ttlMs, now, es, app);
    }
  }

  lemma StuckStays(ttlMs: int, w: World, e: Event, app: string)
    requires Inv(ttlMs, w) && Stuck(w, app)
    ensures var g := Step(ttlMs, w, e);
            && Stuck(g, app) && g.cache.inflight[app] == w.cache.inflight[app]
            && |w.fetches| <= |g.fetches|
            && (forall i :: 0 <= i < |w.fetches| ==> g.fetches[i].app == w.fetches[i].app)
            && (forall k :: |w.fetches| <= k < |g.fetches| ==> g.fetches[k].app != app)
  {
  }

  /** Once stuck, the app's promise is rejected for good and no inner call for the app starts again. */
  lemma {:induction false} StuckForever(ttlMs: int, w: World, es: seq<Event>, app: string)
    requires Inv(ttlMs, w) && Stuck(w, app)
    ensures var g := Run(ttlMs, w, es);
            && Stuck(g, app) && g.cache.inflight[app] == w.cache.inflight[app]
            && |w.fetches| <= |g.fetches|
            && forall k :: |w.fetches| <= k < |g.fetches| ==> g.fetches[k].app != app
    decreases |es|
  {
    if es == [] {
    } else {
      StuckForever(ttlMs, w, es[..|es| - 1], app);
      RunKeepsInv(ttlMs, w, es[..|es| - 1]);
      StuckStays(ttlMs, Run(ttlMs, w, es[..|es| - 1]), es[|es| - 1], app);
    }
  }

  // ---- When the cache answers ----

  /** A fetch that completed, with what the inner call returned. */
  datatype Completed = Completed(entries: Descriptors, fetch: nat, at: int)

  /** This event completes a fetch for the app. */
  predicate Completes(w: World, e: Event, app: string) {
    e.FetchOk? && e.fetch < |w.fetches| && w.fetches[e.fetch] == Fetch(app, Pending)
  }

  /** The app's latest completed fetch since the last invalidate that dropped the app. */
  function LatestCompleted(ttlMs: int, w: World, es: seq<Event>, app: string): Option<Completed> {
    if es == [] then None
    else
      var pre, e := es[..|es| - 1], es[|es| - 1];
      var v := Run(ttlMs, w, pre);
      if Completes(v, e, app) then Some(Completed(e.entries, e.fetch, v.now))
      else if e.Invalidate? && Drops(e.target, app) then None
      else LatestCompleted(ttlMs, w, pre, app)
  }

  /** What the cache holds for each app, said of the events alone. */
  lemma {:induction false} CacheIsLatest(ttlMs: int, now: int, es: seq<Event>, app: string)
    ensures var w := Run(ttlMs, Fresh(now), es);
            var latest := LatestCompleted(ttlMs, Fresh(now), es, app);
            if ttlMs > 0 && latest.Some?
            then app in w.cache.cache
                 && w.cache.cache[app] == CacheEntry(latest.value.entries, latest.value.at + ttlMs, latest.value.fetch)
            else app !in w.cache.cache
    decreases |es|
  {
    if es == [] {
    } else {
      CacheIsLatest(ttlMs, now, es[..|es| - 1], app);
    }
  }

  /** A list call is answered at once, by the entries of the app's latest completed fetch, exactly when that fetch
      completed less than ttl ago and no invalidate has dropped the app since. */
  lemma AnsweredAtOnceIff(ttlMs: int, now: int, es: seq<Event>, app: string, throws: bool)
    ensures var w := Run(ttlMs, Fresh(now), es);
            var g := Run(ttlMs, Fresh(now), es + [List(app, throws)]);
            var latest := LatestCompleted(ttlMs, Fresh(now), es, app);
            && |g.calls| == |w.calls| + 1
            && (g.calls[|w.calls|].state.Answered? <==>
                  ttlMs > 0 && latest.Some? && w.now < latest.value.at + ttlMs)
            && (g.calls[|w.calls|].state.Answered? ==>
                  && g.calls[|w.calls|] == Call(app, Answered(latest.value.entries, latest.value.fetch, Some(w.now)))
                  && g.fetches == w.fetches)
  {
    CacheIsLatest(ttlMs, now, es, app);
    assert (es + [List(app, throws)])[..|es|] == es;
  }

  ghost predicate InFlight(w: World, app: string, f: nat) { f < |w.fetches| && w.fetches[f] == Fetch(app, Pending) }

  /** A list call not answered at once joins the app's pending fetch, or the promise a synchronous throw left; with
      neither, and only then, it calls the inner adapter, and waits for that call. */
  lemma StartsFetchIff(ttlMs: int, now: int, es: seq<Event>, app: string, throws: bool)
    ensures var w := Run(ttlMs, Fresh(now), es);
            var g := Run(ttlMs, Fresh(now), es + [List(app, throws)]);
            && |g.calls| == |w.calls| + 1
            && (g.fetches != w.fetches <==>
                  && !g.calls[|w.calls|].state.Answered?
                  && (forall f: nat :: !InFlight(w, app, f))
                  && !ThrewIn(ttlMs, Fresh(now), es, app))
            && (g.fetches != w.fetches ==>
                  && g.fetches == w.fetches + [Fetch(app, if throws then Rejected else Pending)]
                  && g.calls[|w.calls|] == Call(app, Waiting(|w.fetches|)))
            && (forall f: nat :: InFlight(w, app, f) && !g.calls[|w.calls|].state.Answered? ==>
                  g.calls[|w.calls|] == Call(app, Waiting(f)))
  {
    RunKeepsInv(ttlMs, Fresh(now), es);
    FailureIsCachedIff(ttlMs, now, es, app);
    assert (es + [List(app, throws)])[..|es|] == es;
    var w := Run(ttlMs, Fresh(now), es);
    if app in w.cache.inflight && !Stuck(w, app) { assert InFlight(w, app, w.cache.inflight[app]); }
  }

  /** What each event does to each fetch: it completes with the entries of the inner call, or is rejected, once. */
  lemma FetchMoves(ttlMs: int, w: World, e: Event, f: nat)
    requires f < |w.fetches|
    ensures f < |Step(ttlMs, w, e).fetches|
    ensures var p, q := w.fetches[f], Step(ttlMs, w, e).fetches[f];
            && q.app == p.app
            && q.phase == if e.FetchOk? && e.fetch == f && p.phase.Pending? then Ok(e.entries, w.now)
                          else if e == FetchRejects(f) && p.phase.Pending? then Rejected
                          else p.phase
  {
  }

  /** A waiting call whose fetch has settled is answered with what the fetch returned, or throws as it did. */
  lemma WaiterGetsItsFetch(ttlMs: int, now: int, es: seq<Event>, i: nat)
    requires var w := Run(ttlMs, Fresh(now), es);
             i < |w.calls| && w.calls[i].state.Waiting? && !InFlight(w, w.calls[i].app, w.calls[i].state.fetch)
    ensures var w := Run(ttlMs, Fresh(now), es);
            var f := w.calls[i].state.fetch;
            && f < |w.fetches| && w.fetches[f].app == w.calls[i].app
            && Run(ttlMs, Fresh(now), es + [Resumes(i)]).calls[i].state
               == if w.fetches[f].phase.Ok? then Answered(w.fetches[f].phase.entries, f, None) else Threw(f)
  {
    RunKeepsInv(ttlMs, Fresh(now), es);
    assert (es + [Resumes(i)])[..|es|] == es;
    assert CallOk(ttlMs, Run(ttlMs, Fresh(now), es).fetches, Run(ttlMs, Fresh(now), es).calls[i]);
  }

  // ---- The object ----

  class CachingGadgetCatalog {
    const ttlMs: int
    var cache: map<string, CacheEntry>
    var inflight: map<string, nat>
    var nextFetch: nat

    ghost function View(): Cache reads this { Cache(cache, inflight, nextFetch) }

    constructor (ttlMs: int)
      ensures View() == Cache(map[], map[], 0) && this.ttlMs == ttlMs
    {
      this.ttlMs := ttlMs;
      cache, inflight, nextFetch := map[], map[], 0;
    }

    /** throws: the inner adapter throws while it is called. */
    method List(app: string, now: int, throws: bool) returns (o: Outcome)
      modifies this
      ensures (View(), o) == Listed(old(View()), app, now, throws)
    {
      if app in cache && cache[app].expiresAt > now {
        return Hit(cache[app].entries, cache[app].fetch);
      }
      if app in inflight { return Joins(inflight[app]); }
      var fetch := nextFetch;
      nextFetch := nextFetch + 1;
      if throws { OnRejected(app); }
      inflight := inflight[app := fetch];
      return Joins(fetch);
    }

    method OnFetched(app: string, fetch: nat, entries: Descriptors, now: int)
      modifies this
      ensures View() == Fetched(old(View()), app, fetch, entries, ttlMs, now)
    {
      if ttlMs > 0 { cache := cache[app := CacheEntry(entries, now + ttlMs, fetch)]; }
      inflight := inflight - {app};
    }

    method OnRejected(app: string)
      modifies this
      ensures View() == FetchFailed(old(View()), app)
    {
      inflight := inflight - {app};
    }

    method Invalidate(app: Option<string>)
      modifies this
      ensures View() == Invalidated(old(View()), app)
    {
      if app.None? {
        cache := map[];
        return;
      }
      cache := cache - {app.value};
    }
  }
}
