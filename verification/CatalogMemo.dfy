/** The memo of the agent's tool catalog: one build shared by all requests, dropped when it fails. */
module CatalogMemo {
  import opened Options

  /** Failed: rejected, and the memo's own catch callback has yet to run. Dropped: it has run. */
  datatype Phase = Pending | Built(catalog: string) | Failed | Dropped

  /** Builds are known by number. got: the build each request was handed; declared: the builds declared to the ggui
      server. */
  datatype World = World(memo: Option<nat>, builds: seq<Phase>, got: seq<nat>, declared: seq<nat>)

  datatype Event = Request | BuildOk(build: nat, catalog: string) | BuildRejects(build: nat) | CatchRuns(build: nat)

  function Asked(w: World): World {
    if w.memo.None? then w.(memo := Some(|w.builds|), builds := w.builds + [Pending], got := w.got + [|w.builds|])
    else w.(got := w.got + [w.memo.value])
  }

  function Caught(w: World, i: nat): World
    requires i < |w.builds|
  {
    w.(builds := w.builds[i := Dropped], memo := if w.memo == Some(i) then None else w.memo)
  }

  predicate At(w: World, i: nat, phase: Phase) { i < |w.builds| && w.builds[i] == phase }

  /** declares: crossFramework is on and there is a ggui server. */
  function Step(declares: bool, w: World, e: Event): World {
    match e
    case Request => Asked(w)
    case BuildOk(i, catalog) =>
      if At(w, i, Pending) then
        w.(builds := w.builds[i := Built(catalog)], declared := if declares then w.declared + [i] else w.declared)
      else w
    case BuildRejects(i) => if At(w, i, Pending) then w.(builds := w.builds[i := Failed]) else w
    case CatchRuns(i) => if At(w, i, Failed) then Caught(w, i) else w
  }

  const NEW := World(None, [], [], [])

  function Run(declares: bool, w: World, es: seq<Event>): World {
    if es == [] then w else Step(declares, Run(declares, w, es[..|es| - 1]), es[|es| - 1])
  }

  lemma {:induction false} RunAppend(declares: bool, w: World, a: seq<Event>, b: seq<Event>)
    ensures Run(declares, w, a + b) == Run(declares, Run(declares, w, a), b)
    decreases |b|
  {
    if b == [] {
      assert a + b == a;
    } else {
      assert (a + b)[..|a + b| - 1] == a + b[..|b| - 1];
      RunAppend(declares, w, a, b[..|b| - 1]);
    }
  }

  /** The memo is the one build that has not been dropped. */
  ghost predicate Inv(declares: bool, w: World) {
    && (w.memo.Some? ==> w.memo.value < |w.builds|)
    && (forall i :: 0 <= i < |w.builds| ==> (w.memo == Some(i) <==> !w.builds[i].Dropped?))
    && (forall k :: 0 <= k < |w.got| ==> w.got[k] < |w.builds|)
    && (forall k :: 0 <= k < |w.declared| ==> w.declared[k] < |w.builds| && w.builds[w.declared[k]].Built?)
    && (w.declared != [] ==> |w.declared| == 1 && w.memo == Some(w.declared[0]))
    && (forall i :: 0 <= i < |w.builds| && w.builds[i].Built? ==> w.declared == if declares then [i] else [])
  }

  lemma StepKeepsInv(declares: bool, w: World, e: Event)
    requires Inv(declares, w)
    ensures Inv(declares, Step(declares, w, e))
  {
  }

  lemma {:induction false} RunKeepsInv(declares: bool, w: World, es: seq<Event>)
    requires Inv(declares, w)
    ensures Inv(declares, Run(declares, w, es))
    decreases |es|
  {
    if es == [] {
    } else {
      RunKeepsInv(declares, w, es[..|es| - 1]);
      StepKeepsInv(declares, Run(declares, w, es[..|es| - 1]), es[|es| - 1]);
    }
  }

  /** A request starts a build exactly when every build so far was rejected and dropped, and so never two at once. */
  lemma StartsBuildIff(declares: bool, es: seq<Event>)
    ensures var w := Run(declares, NEW, es);
            && (|Asked(w).builds| > |w.builds| <==> forall i :: 0 <= i < |w.builds| ==> w.builds[i].Dropped?)
            && (forall i, j :: 0 <= i < j < |w.builds| ==> w.builds[i].Dropped? || w.builds[j].Dropped?)
  {
    RunKeepsInv(declares, NEW, es);
  }

  /** Each request is handed the one build that has not been dropped. */
  lemma RequestIsHanded(declares: bool, es: seq<Event>)
    ensures var w := Run(declares, NEW, es);
            var v := Run(declares, NEW, es + [Request]);
            && |v.got| == |w.got| + 1 && v.got[..|w.got|] == w.got
            && v.got[|w.got|] < |v.builds|
            && (forall i :: 0 <= i < |v.builds| ==> (v.builds[i].Dropped? <==> i != v.got[|w.got|]))
            && (v.builds == w.builds || v.builds == w.builds + [Pending])
  {
    RunKeepsInv(declares, NEW, es);
    StepKeepsInv(declares, Run(declares, NEW, es), Request);
    assert (es + [Request])[..|es|] == es;
  }

  /** The catalog of the build that succeeded, and nothing else, is declared, once, exactly where there is a server to
      declare it to. */
  lemma DeclaredIff(declares: bool, es: seq<Event>)
    ensures var w := Run(declares, NEW, es);
            && (forall i :: 0 <= i < |w.builds| && w.builds[i].Built? ==> w.declared == if declares then [i] else [])
            && (w.declared != [] ==> w.declared[0] < |w.builds| && w.builds[w.declared[0]].Built?)
  {
    RunKeepsInv(declares, NEW, es);
  }

  /** What each event does to each build: it succeeds or is rejected once, and a rejected one is dropped once its catch
      callback has run. */
  lemma BuildMoves(declares: bool, w: World, e: Event, i: nat)
    requires i < |w.builds|
    ensures i < |Step(declares, w, e).builds|
    ensures var p, q := w.builds[i], Step(declares, w, e).builds[i];
            q == if e.BuildOk? && e.build == i && p.Pending? then Built(e.catalog)
                 else if e == BuildRejects(i) && p.Pending? then Failed
                 else if e == CatchRuns(i) && p.Failed? then Dropped
                 else p
  {
  }

  ghost predicate Final(w: World, i: nat) { i < |w.builds| && w.builds[i].Built? && w.memo == Some(i) }

  ghost predicate StaysFinal(declares: bool, w: World, v: World, i: nat) {
    && Inv(declares, v) && Final(v, i) && i < |w.builds|
    && v.builds[i] == w.builds[i] && |v.builds| == |w.builds| && v.declared == w.declared
    && |w.got| <= |v.got| && forall k :: |w.got| <= k < |v.got| ==> v.got[k] == i
  }

  lemma FinalStep(declares: bool, w: World, v: World, e: Event, i: nat)
    requires StaysFinal(declares, w, v, i)
    ensures StaysFinal(declares, w, Step(declares, v, e), i)
  {
    StepKeepsInv(declares, v, e);
  }

  lemma {:induction false} FinalStays(declares: bool, w: World, es: seq<Event>, i: nat)
    requires Inv(declares, w) && Final(w, i)
    ensures StaysFinal(declares, w, Run(declares, w, es), i)
    decreases |es|
  {
    if es == [] {
    } else {
      FinalStays(declares, w, es[..|es| - 1], i);
      FinalStep(declares, w, Run(declares, w, es[..|es| - 1]), es[|es| - 1], i);
    }
  }

  /** After a build has succeeded no other starts, every later request gets its catalog, and it is declared at most
      once. */
  lemma SuccessIsFinal(declares: bool, es: seq<Event>, later: seq<Event>, i: nat)
    requires i < |Run(declares, NEW, es).builds| && Run(declares, NEW, es).builds[i].Built?
    ensures var w := Run(declares, NEW, es);
            var v := Run(declares, NEW, es + later);
            && |v.builds| == |w.builds| && v.builds[i] == w.builds[i]
            && |w.got| <= |v.got| && (forall k :: |w.got| <= k < |v.got| ==> v.got[k] == i)
            && |v.declared| <= 1
  {
    RunKeepsInv(declares, NEW, es);
    FinalStays(declares, Run(declares, NEW, es), later, i);
    RunAppend(declares, NEW, es, later);
  }

  class AgentCatalog {
    const declares: bool
    var catalogPromise: Option<nat>
    ghost var builds: seq<Phase>
    ghost var got: seq<nat>
    ghost var declared: seq<nat>
    var nextBuild: nat

    ghost predicate Valid()
      reads this
    {
      nextBuild == |builds|
    }

    ghost function View(): World
      reads this
    {
      World(catalogPromise, builds, got, declared)
    }

    constructor (declares: bool)
      ensures Valid() && View() == NEW && this.declares == declares
    {
      this.declares := declares;
      catalogPromise, nextBuild := None, 0;
      builds, got, declared := [], [], [];
    }

    /** getAgentCatalog: the promise the caller awaits. */
    method GetAgentCatalog() returns (build: nat)
      requires Valid()
      modifies this
      ensures Valid() && View() == Step(declares, old(View()), Request) && got == old(got) + [build]
    {
      if catalogPromise.None? {
        catalogPromise := Some(nextBuild);
        nextBuild := nextBuild + 1;
        builds := builds + [Pending];
      }
      build := catalogPromise.value;
      got := got + [build];
    }

    /** The catch callback of a build that rejected. */
    method OnRejected(build: nat)
      requires Valid() && At(View(), build, Failed)
      modifies this
      ensures Valid() && View() == Step(declares, old(View()), CatchRuns(build))
    {
      builds := builds[build := Dropped];
      if catalogPromise == Some(build) { catalogPromise := None; }
    }
  }
}
