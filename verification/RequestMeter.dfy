/** The request meter of the MCP host simulator: one probe per POST, found again by the tag its headers carry.
    Each event below is one synchronous segment. Probes, posts and watchers are known by number. */
module RequestMeter {
  import opened Options

  /** The first-byte gate aborted the request; whether a body byte or the end had been seen by then. */
  datatype GateAbort = GateAbort(at: int, sawByte: bool, sawEnd: bool)

  datatype Response = Response(status: nat, contentType: Option<string>, contentEncoding: Option<string>)

  /** gate is the first-byte budget, absent for a passive probe; timer the pending deadline.
      answers holds, for each header waiter, what its promise was resolved with; waiting, the unresolved ones. */
  datatype Probe = Probe(
    gate: Option<nat>, sentAt: int, writtenAt: Option<int>, connectedAt: Option<int>,
    headersAt: Option<int>, response: Option<Response>,
    firstByteAt: Option<int>, lastByteAt: Option<int>, bytes: nat, endedAt: Option<int>, failed: bool, cancelled: bool,
    timer: Option<int>, abort: Option<GateAbort>, waiting: seq<nat>, answers: seq<seq<bool>>)

  function NewProbe(gate: Option<nat>, now: int): Probe {
    Probe(gate, now, None, None, None, None, None, None, 0, None, false, false, None, None, [], [])
  }

  function WrittenAt(p: Probe, connected: Option<int>, now: int): Probe {
    if p.writtenAt.Some? then p
    else
      var q := p.(writtenAt := Some(now),
                  connectedAt := if connected.Some? && connected.value >= p.sentAt then connected else p.connectedAt);
      if p.gate.None? || p.firstByteAt.Some? || p.endedAt.Some? then q else q.(timer := Some(now + p.gate.value))
  }

  /** Every waiter still waiting is resolved, in order, and none waits any more. */
  function Settled(p: Probe, arrived: bool): Probe {
    p.(waiting := [], answers := Answered(p.answers, p.waiting, arrived))
  }

  function Answered(answers: seq<seq<bool>>, waiting: seq<nat>, arrived: bool): (r: seq<seq<bool>>)
    ensures |r| == |answers|
    decreases |waiting|
  {
    if waiting == [] then answers
    else
      var r := Answered(answers, waiting[..|waiting| - 1], arrived);
      var k := waiting[|waiting| - 1];
      if k < |r| then r[k := r[k] + [arrived]] else r
  }

  function HeadersAt(p: Probe, response: Response, now: int): Probe {
    Settled(p.(headersAt := Some(now), response := Some(response)), true)
  }

  function ChunkAt(p: Probe, n: nat, now: int): Probe {
    var q := p.(lastByteAt := Some(now), bytes := p.bytes + n);
    if p.firstByteAt.None? then q.(firstByteAt := Some(now), timer := None) else q
  }

  function EndedAt(p: Probe, failed: bool, cancelled: bool, now: int): Probe {
    if p.endedAt.Some? then p
    else Settled(p.(endedAt := Some(now), failed := failed, cancelled := cancelled, timer := None), false)
  }

  /** headersArrived(): a new waiter, answered at once where the answer is known. */
  function Asked(p: Probe): Probe {
    if p.headersAt.Some? then p.(answers := p.answers + [[true]])
    else if p.endedAt.Some? then p.(answers := p.answers + [[false]])
    else p.(waiting := p.waiting + [|p.answers|], answers := p.answers + [[]])
  }

  function GateFired(p: Probe, now: int): Probe {
    if p.timer.None? || now < p.timer.value then p
    else p.(timer := None,
            abort := if p.abort.Some? then p.abort else Some(GateAbort(now, p.firstByteAt.Some?, p.endedAt.Some?)))
  }

  // ---- The meter ----

  /** Sent: no response yet. A response without a body, and a fetch that failed, are over. */
  datatype Phase = Sent | Streaming | Bodyless | FetchFailed

  /** Post i carries tag i + 1. reported: its done() ran. */
  datatype Post = Post(rpc: string, toolName: Option<string>, probe: nat, phase: Phase, reported: bool)

  datatype Watch = Watch(rpc: string, toolName: Option<string>)

  /** removed logs the posts whose done() deregistered them; matched the post each watcher was resolved with. */
  datatype Meter = Meter(
    now: int, probes: seq<Probe>, posts: seq<Post>, armed: Option<nat>, inFlight: set<nat>, tags: map<nat, nat>,
    watches: seq<Watch>, watchers: seq<nat>, matched: map<nat, nat>, removed: seq<nat>)

  datatype Event =
    | Tick(ms: nat)
    | Arm(gate: nat)
    | Disarm(probe: nat)
    | WatchNext(watch: Watch)
    | CancelWatch(watcher: nat)
    | Send(rpc: string, toolName: Option<string>)
    | Written(tag: nat, connected: Option<int>)
    | Headers(post: nat, body: bool, response: Response)
    | FetchThrew(post: nat)
    | Chunk(post: nat, bytes: nat)
    | BodyOver(post: nat, failed: bool, cancelled: bool)
    | GateFires(probe: nat)
    | AskHeaders(probe: nat)
    | Finish(probe: nat)

  predicate Matches(w: Watch, rpc: string, toolName: Option<string>) {
    w.rpc == rpc && (w.toolName.None? || w.toolName == toolName)
  }

  /** The place of the first watcher that matches, or the number of watchers. */
  function FirstMatch(watches: seq<Watch>, watchers: seq<nat>, rpc: string, toolName: Option<string>): (at: nat)
    ensures at <= |watchers|
    ensures at < |watchers| ==> watchers[at] < |watches| && Matches(watches[watchers[at]], rpc, toolName)
    ensures forall k :: 0 <= k < at && watchers[k] < |watches| ==> !Matches(watches[watchers[k]], rpc, toolName)
  {
    if watchers == [] || (watchers[0] < |watches| && Matches(watches[watchers[0]], rpc, toolName)) then 0
    else 1 + FirstMatch(watches, watchers[1..], rpc, toolName)
  }

  function Without(s: seq<nat>, at: nat): seq<nat>
    requires at < |s|
  {
    s[..at] + s[at + 1..]
  }

  function IndexOf(s: seq<nat>, x: nat): (at: nat)
    ensures at <= |s| && (at < |s| ==> s[at] == x) && forall k :: 0 <= k < at ==> s[k] != x
  {
    if s == [] || s[0] == x then 0 else 1 + IndexOf(s[1..], x)
  }

  predicate TakesArmed(m: Meter, rpc: string) { rpc == "resources/read" && m.armed.Some? }

  function Claim(m: Meter, rpc: string): nat { if TakesArmed(m, rpc) then m.armed.value else |m.probes| }

  function Claimed(m: Meter, rpc: string): Meter {
    if TakesArmed(m, rpc) then m.(armed := None) else m.(probes := m.probes + [NewProbe(None, m.now)])
  }

  function Registered(m: Meter, post: Post): Meter {
    m.(posts := m.posts + [post], tags := m.tags[|m.posts| + 1 := post.probe], inFlight := m.inFlight + {post.probe})
  }

  /** The first watcher for post i, if any, is resolved with it. */
  function Noticed(m: Meter, i: nat, rpc: string, toolName: Option<string>): Meter {
    var at := FirstMatch(m.watches, m.watchers, rpc, toolName);
    if at == |m.watchers| then m
    else m.(watchers := Without(m.watchers, at), matched := m.matched[m.watchers[at] := i])
  }

  /** The wrapped fetch of a POST up to its first await. */
  function Posted(m: Meter, rpc: string, toolName: Option<string>): Meter {
    Registered(Noticed(Claimed(m, rpc), |m.posts|, rpc, toolName), Post(rpc, toolName, Claim(m, rpc), Sent, false))
  }

  function WithProbe(m: Meter, k: nat, p: Probe): Meter
    requires k < |m.probes|
  {
    m.(probes := m.probes[k := p])
  }

  /** done(): the first call ends the probe and deregisters it, any other does nothing. */
  function Done(m: Meter, i: nat, failed: bool, cancelled: bool): Meter
    requires i < |m.posts| && m.posts[i].probe < |m.probes|
  {
    var post := m.posts[i];
    if post.reported then m
    else
      m.(posts := m.posts[i := post.(reported := true)],
         probes := m.probes[post.probe := EndedAt(m.probes[post.probe], failed, cancelled, m.now)],
         tags := m.tags - {i + 1}, inFlight := m.inFlight - {post.probe}, removed := m.removed + [i])
  }

  predicate At(m: Meter, i: nat, phase: Phase) {
    i < |m.posts| && m.posts[i].phase == phase && m.posts[i].probe < |m.probes|
  }

  function Opened(m: Meter, i: nat, phase: Phase, response: Response): Meter
    requires At(m, i, Sent)
  {
    m.(posts := m.posts[i := m.posts[i].(phase := phase)],
       probes := m.probes[m.posts[i].probe := HeadersAt(m.probes[m.posts[i].probe], response, m.now)])
  }

  function Responded(m: Meter, i: nat, body: bool, response: Response): Meter
    requires At(m, i, Sent)
  {
    if body then Opened(m, i, Streaming, response) else Done(Opened(m, i, Bodyless, response), i, false, false)
  }

  /** The probe that an event concerns, or the number of probes. */
  function Noter(m: Meter, e: Event): nat {
    match e
    case Written(tag, _) => if tag in m.tags then m.tags[tag] else |m.probes|
    case Chunk(i, _) => if At(m, i, Streaming) then m.posts[i].probe else |m.probes|
    case GateFires(k) => k
    case AskHeaders(k) => k
    case Finish(k) => k
    case _ => |m.probes|
  }

  function Noted(p: Probe, e: Event, now: int): Probe {
    match e
    case Written(_, connected) => WrittenAt(p, connected, now)
    case Chunk(_, n) => ChunkAt(p, n, now)
    case GateFires(_) => GateFired(p, now)
    case AskHeaders(_) => Asked(p)
    case Finish(_) => p.(timer := None)
    case _ => p
  }

  /** A step that cannot happen yet changes nothing. */
  function Step(m: Meter, e: Event): Meter {
    match e
    case Tick(ms) => m.(now := m.now + ms)
    case Arm(gate) => m.(probes := m.probes + [NewProbe(Some(gate), m.now)], armed := Some(|m.probes|))
    case Disarm(k) => if m.armed == Some(k) then m.(armed := None) else m
    case WatchNext(watch) => m.(watches := m.watches + [watch], watchers := m.watchers + [|m.watches|])
    case CancelWatch(id) =>
      var at := IndexOf(m.watchers, id);
      if at < |m.watchers| then m.(watchers := Without(m.watchers, at)) else m
    case Send(rpc, toolName) => Posted(m, rpc, toolName)
    case Headers(i, body, response) => if At(m, i, Sent) then Responded(m, i, body, response) else m
    case FetchThrew(i) =>
      if At(m, i, Sent) then Done(m.(posts := m.posts[i := m.posts[i].(phase := FetchFailed)]), i, true, false) else m
    case BodyOver(i, failed, cancelled) => if At(m, i, Streaming) then Done(m, i, failed, cancelled) else m
    case _ => if Noter(m, e) < |m.probes| then WithProbe(m, Noter(m, e), Noted(m.probes[Noter(m, e)], e, m.now)) else m
  }

  function NewMeter(now: int): Meter { Meter(now, [], [], None, {}, map[], [], [], map[], []) }

  function Run(m: Meter, es: seq<Event>): Meter {
    if es == [] then m else Step(Run(m, es[..|es| - 1]), es[|es| - 1])
  }

  // ---- What holds of every probe ----

  /** Waiters wait, in order, until headers or the end; from then on each has been answered once, with whether headers
      came. */
  ghost predicate WaitersOk(p: Probe) {
    if p.headersAt.None? && p.endedAt.None? then
      && |p.waiting| == |p.answers|
      && forall k :: 0 <= k < |p.answers| ==> p.waiting[k] == k && p.answers[k] == []
    else
      p.waiting == [] && forall k :: 0 <= k < |p.answers| ==> p.answers[k] == [p.headersAt.Some?]
  }

  /** The gate runs from the write until the first byte or the end, and aborts at its deadline or later. */
  ghost predicate GateOk(p: Probe) {
    && (p.timer.Some? ==>
          && p.gate.Some? && p.writtenAt.Some? && p.timer.value == p.writtenAt.value + p.gate.value
          && p.firstByteAt.None? && p.endedAt.None?)
    && (p.abort.Some? ==>
          && p.gate.Some? && p.writtenAt.Some? && p.abort.value.at >= p.writtenAt.value + p.gate.value
          && !p.abort.value.sawByte && !p.abort.value.sawEnd)
    && (p.writtenAt.None? ==> p.timer.None? && p.abort.None?)
  }

  ghost predicate ProbeOk(p: Probe) { WaitersOk(p) && GateOk(p) && (p.response.Some? <==> p.headersAt.Some?) }

  /** Same gate, and neither response nor end arrived in between. */
  predicate Untouched(p: Probe, q: Probe) {
    q.gate == p.gate && q.headersAt == p.headersAt && q.endedAt == p.endedAt
  }

  lemma WrittenIsOk(p: Probe, connected: Option<int>, now: int)
    requires ProbeOk(p)
    ensures ProbeOk(WrittenAt(p, connected, now)) && Untouched(p, WrittenAt(p, connected, now))
  {
    var q := WrittenAt(p, connected, now);
    assert q.waiting == p.waiting && q.answers == p.answers && Untouched(p, q);
  }

  lemma ChunkIsOk(p: Probe, n: nat, now: int)
    requires ProbeOk(p)
    ensures ProbeOk(ChunkAt(p, n, now)) && Untouched(p, ChunkAt(p, n, now))
  {
    var q := ChunkAt(p, n, now);
    assert q.waiting == p.waiting && q.answers == p.answers && Untouched(p, q);
  }

  lemma GateIsOk(p: Probe, now: int)
    requires ProbeOk(p)
    ensures ProbeOk(GateFired(p, now)) && Untouched(p, GateFired(p, now))
  {
    var q := GateFired(p, now);
    assert q.waiting == p.waiting && q.answers == p.answers && Untouched(p, q);
  }

  lemma AskedIsOk(p: Probe)
    requires ProbeOk(p)
    ensures ProbeOk(Asked(p)) && Untouched(p, Asked(p))
  {
  }

  lemma NotedIsOk(p: Probe, e: Event, now: int)
    requires ProbeOk(p)
    ensures ProbeOk(Noted(p, e, now)) && Untouched(p, Noted(p, e, now))
  {
    match e
    case Written(_, connected) => WrittenIsOk(p, connected, now);
    case Chunk(_, n) => ChunkIsOk(p, n, now);
    case GateFires(_) => GateIsOk(p, now);
    case AskHeaders(_) => AskedIsOk(p);
    case _ =>
  }

  /** Answering a list of waiters without repetition answers each of them once. */
  lemma {:induction false} AnsweredAt(answers: seq<seq<bool>>, waiting: seq<nat>, arrived: bool)
    requires |waiting| <= |answers|
    requires forall k :: 0 <= k < |waiting| ==> waiting[k] == k
    ensures forall k :: 0 <= k < |answers| ==>
              Answered(answers, waiting, arrived)[k] == if k < |waiting| then answers[k] + [arrived] else answers[k]
    decreases |waiting|
  {
    if waiting == [] {
    } else {
      AnsweredAt(answers, waiting[..|waiting| - 1], arrived);
    }
  }

  lemma SettledIsOk(p: Probe, q: Probe, arrived: bool)
    requires WaitersOk(p) && p.endedAt.None? && p.headersAt.None?
    requires q.waiting == p.waiting && q.answers == p.answers && arrived == q.headersAt.Some?
    requires q.headersAt.Some? || q.endedAt.Some?
    ensures WaitersOk(Settled(q, arrived))
  {
    AnsweredAt(p.answers, p.waiting, arrived);
  }

  lemma HeadersAreOk(p: Probe, response: Response, now: int)
    requires ProbeOk(p) && p.headersAt.None? && p.endedAt.None?
    ensures var q := HeadersAt(p, response, now);
            ProbeOk(q) && q.headersAt.Some? && q.endedAt.None? && q.gate == p.gate
  {
    SettledIsOk(p, p.(headersAt := Some(now), response := Some(response)), true);
  }

  lemma EndIsOk(p: Probe, failed: bool, cancelled: bool, now: int)
    requires ProbeOk(p) && p.endedAt.None?
    ensures var q := EndedAt(p, failed, cancelled, now);
            ProbeOk(q) && q.endedAt.Some? && q.headersAt == p.headersAt && q.gate == p.gate
  {
    var q := p.(endedAt := Some(now), failed := failed, cancelled := cancelled, timer := None);
    if p.headersAt.None? { SettledIsOk(p, q, false); }
  }

  // ---- What holds of the meter in every run ----

  /** A post's tag finds its probe, and the probe is in flight, exactly while it has not ended. */
  ghost predicate PostOk(m: Meter, i: nat)
    requires i < |m.posts|
  {
    var post := m.posts[i];
    && post.probe < |m.probes|
    && (i + 1 in m.tags <==> !post.reported) && (i + 1 in m.tags ==> m.tags[i + 1] == post.probe)
    && (post.probe in m.inFlight <==> !post.reported)
    && (m.probes[post.probe].endedAt.None? <==> !post.reported)
    && (m.probes[post.probe].headersAt.Some? <==> post.phase.Streaming? || post.phase.Bodyless?)
    && (post.phase.Sent? ==> !post.reported)
    && (m.probes[post.probe].gate.Some? ==> post.rpc == "resources/read")
  }

  /** No two posts share a probe. */
  ghost predicate OneProbeEach(m: Meter) {
    forall i, j :: 0 <= i < j < |m.posts| ==> m.posts[i].probe != m.posts[j].probe
  }

  /** The armed probe has not been used. */
  ghost predicate ArmedOk(m: Meter) {
    m.armed.Some? ==>
      && m.armed.value < |m.probes|
      && m.probes[m.armed.value].headersAt.None? && m.probes[m.armed.value].endedAt.None?
      && forall i :: 0 <= i < |m.posts| ==> m.posts[i].probe != m.armed.value
  }

  ghost predicate OnlyPosts(m: Meter) {
    && (forall t :: t in m.tags ==> 1 <= t <= |m.posts|)
    && (forall k :: k in m.inFlight ==> exists i :: 0 <= i < |m.posts| && m.posts[i].probe == k)
  }

  /** A post is deregistered once, by its first done(). */
  ghost predicate RemovedOk(m: Meter) {
    && (forall a, b :: 0 <= a < b < |m.removed| ==> m.removed[a] != m.removed[b])
    && (forall i :: i in m.removed ==> i < |m.posts|)
    && (forall i :: 0 <= i < |m.posts| ==> (i in m.removed <==> m.posts[i].reported))
  }

  /** A watcher waits or was matched, not both; a match is with a post it asked for, and no post has two. */
  ghost predicate WatchersOk(m: Meter) {
    && (forall a, b :: 0 <= a < b < |m.watchers| ==> m.watchers[a] != m.watchers[b])
    && (forall a :: 0 <= a < |m.watchers| ==> m.watchers[a] < |m.watches| && m.watchers[a] !in m.matched)
    && (forall id :: id in m.matched ==> MatchOk(m, id))
    && (forall id, other :: id in m.matched && other in m.matched && m.matched[id] == m.matched[other] ==> id == other)
  }

  ghost predicate MatchOk(m: Meter, id: nat)
    requires id in m.matched
  {
    id < |m.watches| && m.matched[id] < |m.posts|
    && Matches(m.watches[id], m.posts[m.matched[id]].rpc, m.posts[m.matched[id]].toolName)
  }

  ghost predicate ProbesOk(m: Meter) { forall k :: 0 <= k < |m.probes| ==> ProbeOk(m.probes[k]) }

  ghost predicate PostsOk(m: Meter) { forall i :: 0 <= i < |m.posts| ==> PostOk(m, i) }

  ghost predicate Inv(m: Meter) {
    ProbesOk(m) && PostsOk(m) && OneProbeEach(m) && ArmedOk(m) && OnlyPosts(m) && RemovedOk(m) && WatchersOk(m)
  }

  /** Steps that only note something in one probe. */
  lemma NoteKeepsInv(m: Meter, k: nat, p: Probe)
    requires Inv(m) && k < |m.probes| && ProbeOk(p) && Untouched(m.probes[k], p)
    ensures Inv(WithProbe(m, k, p))
  {
    var g := WithProbe(m, k, p);
    forall i | 0 <= i < |g.posts| ensures PostOk(g, i) { assert PostOk(m, i); }
    forall id | id in g.matched ensures MatchOk(g, id) { assert MatchOk(m, id); }
  }

  lemma ArmKeepsInv(m: Meter, gate: nat)
    requires Inv(m)
    ensures Inv(Step(m, Arm(gate)))
  {
    var g := Step(m, Arm(gate));
    forall i | 0 <= i < |g.posts| ensures PostOk(g, i) && g.posts[i].probe != |m.probes| { assert PostOk(m, i); }
    forall id | id in g.matched ensures MatchOk(g, id) { assert MatchOk(m, id); }
  }

  lemma WatchKeepsInv(m: Meter, watch: Watch)
    requires Inv(m)
    ensures Inv(Step(m, WatchNext(watch)))
  {
    var g := Step(m, WatchNext(watch));
    forall i | 0 <= i < |g.posts| ensures PostOk(g, i) { assert PostOk(m, i); }
    forall id | id in g.matched ensures MatchOk(g, id) { assert MatchOk(m, id); }
  }

  lemma CancelKeepsInv(m: Meter, id: nat)
    requires Inv(m)
    ensures Inv(Step(m, CancelWatch(id)))
  {
    var g := Step(m, CancelWatch(id));
    if IndexOf(m.watchers, id) < |m.watchers| { WithoutIsRest(m.watchers, IndexOf(m.watchers, id)); }
    forall i | 0 <= i < |g.posts| ensures PostOk(g, i) { assert PostOk(m, i); }
    forall w | w in g.matched ensures MatchOk(g, w) { assert MatchOk(m, w); }
  }

  /** A probe that no post has and that is not armed. */
  ghost predicate Unused(m: Meter, k: nat) {
    && k < |m.probes| && m.probes[k].headersAt.None? && m.probes[k].endedAt.None? && m.armed != Some(k)
    && forall i :: 0 <= i < |m.posts| ==> m.posts[i].probe != k
  }

  lemma ClaimKeepsInv(m: Meter, rpc: string)
    requires Inv(m)
    ensures Inv(Claimed(m, rpc)) && Unused(Claimed(m, rpc), Claim(m, rpc))
    ensures Claimed(m, rpc).probes[Claim(m, rpc)].gate.Some? ==> rpc == "resources/read"
  {
    if TakesArmed(m, rpc) { DisarmKeepsInv(m, m.armed.value); } else { NewProbeKeepsInv(m); }
  }

  lemma NewProbeKeepsInv(m: Meter)
    requires Inv(m)
    ensures var g := m.(probes := m.probes + [NewProbe(None, m.now)]); Inv(g) && Unused(g, |m.probes|)
  {
    var g := m.(probes := m.probes + [NewProbe(None, m.now)]);
    forall i | 0 <= i < |g.posts| ensures PostOk(g, i) && g.posts[i].probe != |m.probes| { assert PostOk(m, i); }
    forall id | id in g.matched ensures MatchOk(g, id) { assert MatchOk(m, id); }
  }

  lemma RegisterKeepsInv(m: Meter, post: Post)
    requires Inv(m) && Unused(m, post.probe) && post.phase.Sent? && !post.reported
    requires m.probes[post.probe].gate.Some? ==> post.rpc == "resources/read"
    ensures Inv(Registered(m, post))
  {
    var g := Registered(m, post);
    forall i | 0 <= i < |m.posts| ensures PostOk(g, i) { assert PostOk(m, i); }
    assert PostOk(g, |m.posts|);
    forall id | id in g.matched ensures MatchOk(g, id) { assert MatchOk(m, id); }
    RegisterKeepsInFlight(m, post);
  }

  lemma RegisterKeepsInFlight(m: Meter, post: Post)
    requires OnlyPosts(m)
    ensures OnlyPosts(Registered(m, post))
  {
    var g := Registered(m, post);
    forall k | k in g.inFlight ensures exists i :: 0 <= i < |g.posts| && g.posts[i].probe == k {
      if k in m.inFlight {
        var i :| 0 <= i < |m.posts| && m.posts[i].probe == k;
        assert g.posts[i].probe == k;
      } else {
        assert g.posts[|m.posts|].probe == k;
      }
    }
  }

  lemma NoticeKeepsInv(m: Meter, i: nat)
    requires Inv(m) && i < |m.posts|
    requires forall id :: id in m.matched ==> m.matched[id] != i
    ensures Inv(Noticed(m, i, m.posts[i].rpc, m.posts[i].toolName))
  {
    var g := Noticed(m, i, m.posts[i].rpc, m.posts[i].toolName);
    forall j | 0 <= j < |g.posts| ensures PostOk(g, j) { assert PostOk(m, j); }
    NoticeKeepsWatchers(m, i);
  }

  lemma NoticeKeepsWatchers(m: Meter, i: nat)
    requires WatchersOk(m) && i < |m.posts|
    requires forall id :: id in m.matched ==> m.matched[id] != i
    ensures WatchersOk(Noticed(m, i, m.posts[i].rpc, m.posts[i].toolName))
  {
    var g := Noticed(m, i, m.posts[i].rpc, m.posts[i].toolName);
    var at := FirstMatch(m.watches, m.watchers, m.posts[i].rpc, m.posts[i].toolName);
    if at < |m.watchers| {
      WithoutIsRest(m.watchers, at);
      forall id | id in g.matched ensures MatchOk(g, id) {
        if id in m.matched { assert MatchOk(m, id); }
      }
    }
  }

  lemma WithoutIsRest(s: seq<nat>, at: nat)
    requires at < |s| && forall a, b :: 0 <= a < b < |s| ==> s[a] != s[b]
    ensures var r := Without(s, at);
            && (forall a, b :: 0 <= a < b < |r| ==> r[a] != r[b])
            && (forall a :: 0 <= a < |r| ==> r[a] in s && r[a] != s[at])
  {
  }

  lemma NoticedAfterRegistered(m: Meter, post: Post, i: nat)
    ensures Registered(Noticed(m, i, post.rpc, post.toolName), post)
         == Noticed(Registered(m, post), i, post.rpc, post.toolName)
  {
  }

  lemma RegisterThenNotice(m: Meter, post: Post)
    requires Inv(m) && Unused(m, post.probe) && post.phase.Sent? && !post.reported
    requires m.probes[post.probe].gate.Some? ==> post.rpc == "resources/read"
    ensures Inv(Noticed(Registered(m, post), |m.posts|, post.rpc, post.toolName))
  {
    var g := Registered(m, post);
    RegisterKeepsInv(m, post);
    MatchedEarlier(m);
    assert g.posts[|m.posts|] == post && g.matched == m.matched;
    NoticeKeepsInv(g, |m.posts|);
  }

  lemma SendKeepsInv(m: Meter, rpc: string, toolName: Option<string>)
    requires Inv(m)
    ensures Inv(Step(m, Send(rpc, toolName)))
  {
    var post := Post(rpc, toolName, Claim(m, rpc), Sent, false);
    ClaimKeepsInv(m, rpc);
    RegisterThenNotice(Claimed(m, rpc), post);
    NoticedAfterRegistered(Claimed(m, rpc), post, |m.posts|);
  }

  lemma MatchedEarlier(m: Meter)
    requires WatchersOk(m)
    ensures forall id :: id in m.matched ==> m.matched[id] != |m.posts|
  {
    forall id | id in m.matched ensures m.matched[id] != |m.posts| { assert MatchOk(m, id); }
  }

  /** The response arrives, with the post's phase. */
  lemma HeadersKeepInv(m: Meter, i: nat, phase: Phase, response: Response)
    requires Inv(m) && At(m, i, Sent) && (phase.Streaming? || phase.Bodyless?)
    ensures Inv(Opened(m, i, phase, response))
  {
    var g := Opened(m, i, phase, response);
    assert PostOk(m, i);
    HeadersAreOk(m.probes[m.posts[i].probe], response, m.now);
    PostsMove(m, g, i);
  }

  lemma ThrowKeepsInv(m: Meter, i: nat)
    requires Inv(m) && At(m, i, Sent)
    ensures Inv(m.(posts := m.posts[i := m.posts[i].(phase := FetchFailed)]))
  {
    assert PostOk(m, i);
    PostsMove(m, m.(posts := m.posts[i := m.posts[i].(phase := FetchFailed)]), i);
  }

  predicate SamePost(p: Post, q: Post) {
    q.rpc == p.rpc && q.toolName == p.toolName && q.probe == p.probe && q.reported == p.reported
  }

  /** One post and its probe move on; the others, and what is registered, stay. */
  lemma PostsMove(m: Meter, g: Meter, i: nat)
    requires Inv(m) && i < |m.posts| && m.posts[i].probe < |m.probes|
    requires |g.posts| == |m.posts| && g.posts == m.posts[i := g.posts[i]] && SamePost(m.posts[i], g.posts[i])
    requires |g.probes| == |m.probes| && g.probes == m.probes[m.posts[i].probe := g.probes[m.posts[i].probe]]
    requires g == m.(posts := g.posts, probes := g.probes)
    requires ProbeOk(g.probes[m.posts[i].probe]) && PostOk(g, i)
    ensures Inv(g)
  {
    forall j | 0 <= j < |g.posts| ensures PostOk(g, j) {
      assert PostOk(m, j);
    }
    forall id | id in g.matched ensures MatchOk(g, id) { assert MatchOk(m, id); }
    forall k | k in g.inFlight ensures exists j :: 0 <= j < |g.posts| && g.posts[j].probe == k {
      var j :| 0 <= j < |m.posts| && m.posts[j].probe == k;
      assert g.posts[j].probe == k;
    }
  }

  lemma DoneKeepsInv(m: Meter, i: nat, failed: bool, cancelled: bool)
    requires Inv(m) && i < |m.posts| && !m.posts[i].phase.Sent? && m.posts[i].probe < |m.probes|
    ensures Inv(Done(m, i, failed, cancelled))
  {
    assert PostOk(m, i);
    if !m.posts[i].reported {
      var h := Done(m, i, failed, cancelled);
      EndIsOk(m.probes[m.posts[i].probe], failed, cancelled, m.now);
      forall j | 0 <= j < |h.posts| ensures PostOk(h, j) {
        assert PostOk(m, j);
        if j != i { assert m.posts[j].probe != m.posts[i].probe; }
      }
      forall id | id in h.matched ensures MatchOk(h, id) { assert MatchOk(m, id); }
      forall k | k in h.inFlight ensures exists j :: 0 <= j < |h.posts| && h.posts[j].probe == k {
        var j :| 0 <= j < |m.posts| && m.posts[j].probe == k;
        assert h.posts[j].probe == k;
      }
    }
  }

  lemma ResponseKeepsInv(m: Meter, i: nat, body: bool, response: Response)
    requires Inv(m)
    ensures Inv(Step(m, Headers(i, body, response)))
  {
    if At(m, i, Sent) {
      HeadersKeepInv(m, i, if body then Streaming else Bodyless, response);
      if !body { DoneKeepsInv(Opened(m, i, Bodyless, response), i, false, false); }
    }
  }

  lemma FetchThrewKeepsInv(m: Meter, i: nat)
    requires Inv(m)
    ensures Inv(Step(m, FetchThrew(i)))
  {
    if At(m, i, Sent) {
      ThrowKeepsInv(m, i);
      DoneKeepsInv(m.(posts := m.posts[i := m.posts[i].(phase := FetchFailed)]), i, true, false);
    }
  }

  lemma BodyOverKeepsInv(m: Meter, i: nat, failed: bool, cancelled: bool)
    requires Inv(m)
    ensures Inv(Step(m, BodyOver(i, failed, cancelled)))
  {
    if At(m, i, Streaming) { DoneKeepsInv(m, i, failed, cancelled); }
  }

  lemma NotingKeepsInv(m: Meter, e: Event)
    requires Inv(m) && (e.Written? || e.Chunk? || e.GateFires? || e.AskHeaders? || e.Finish?)
    ensures Inv(Step(m, e))
  {
    var k := Noter(m, e);
    if k < |m.probes| {
      NotedIsOk(m.probes[k], e, m.now);
      NoteKeepsInv(m, k, Noted(m.probes[k], e, m.now));
    }
  }

  lemma StepKeepsInv(m: Meter, e: Event)
    requires Inv(m)
    ensures Inv(Step(m, e))
  {
    match e
    case Tick(ms) => TickKeepsInv(m, ms);
    case Arm(gate) => ArmKeepsInv(m, gate);
    case Disarm(k) => DisarmKeepsInv(m, k);
    case WatchNext(watch) => WatchKeepsInv(m, watch);
    case CancelWatch(id) => CancelKeepsInv(m, id);
    case Send(rpc, toolName) => SendKeepsInv(m, rpc, toolName);
    case Headers(i, body, response) => ResponseKeepsInv(m, i, body, response);
    case FetchThrew(i) => FetchThrewKeepsInv(m, i);
    case BodyOver(i, failed, cancelled) => BodyOverKeepsInv(m, i, failed, cancelled);
    case _ => NotingKeepsInv(m, e);
  }

  lemma TickKeepsInv(m: Meter, ms: nat)
    requires Inv(m)
    ensures Inv(Step(m, Tick(ms)))
  {
    var g := Step(m, Tick(ms));
    forall i | 0 <= i < |g.posts| ensures PostOk(g, i) { assert PostOk(m, i); }
    forall id | id in g.matched ensures MatchOk(g, id) { assert MatchOk(m, id); }
  }

  lemma DisarmKeepsInv(m: Meter, k: nat)
    requires Inv(m)
    ensures Inv(Step(m, Disarm(k)))
  {
    var g := Step(m, Disarm(k));
    forall i | 0 <= i < |g.posts| ensures PostOk(g, i) { assert PostOk(m, i); }
    forall id | id in g.matched ensures MatchOk(g, id) { assert MatchOk(m, id); }
  }

  lemma {:induction false} RunKeepsInv(now: int, es: seq<Event>)
    ensures Inv(Run(NewMeter(now), es))
    decreases |es|
  {
    if es == [] {
    } else {
      RunKeepsInv(now, es[..|es| - 1]);
      StepKeepsInv(Run(NewMeter(now), es[..|es| - 1]), es[|es| - 1]);
    }
  }

  /** A post whose transfer is over has run its done(). */
  ghost predicate OverIsReported(m: Meter) {
    forall i :: 0 <= i < |m.posts| && (m.posts[i].phase.Bodyless? || m.posts[i].phase.FetchFailed?) ==>
      m.posts[i].reported
  }

  lemma StepKeepsOver(m: Meter, e: Event)
    requires Inv(m) && OverIsReported(m)
    ensures OverIsReported(Step(m, e))
  {
    match e
    case Send(rpc, toolName) => SendKeepsOver(m, rpc, toolName);
    case Headers(i, body, response) => if At(m, i, Sent) { ResponseKeepsOver(m, i, body, response); }
    case FetchThrew(i) =>
      if At(m, i, Sent) { DoneReports(m.(posts := m.posts[i := m.posts[i].(phase := FetchFailed)]), i, true, false); }
    case BodyOver(i, failed, cancelled) => if At(m, i, Streaming) { DoneReports(m, i, failed, cancelled); }
    case _ => assert Step(m, e).posts == m.posts;
  }

  lemma ResponseKeepsOver(m: Meter, i: nat, body: bool, response: Response)
    requires OverIsReported(m) && At(m, i, Sent)
    ensures OverIsReported(Responded(m, i, body, response))
  {
    if !body { DoneReports(Opened(m, i, Bodyless, response), i, false, false); }
  }

  lemma SendKeepsOver(m: Meter, rpc: string, toolName: Option<string>)
    requires OverIsReported(m)
    ensures OverIsReported(Posted(m, rpc, toolName))
  {
    assert Posted(m, rpc, toolName).posts == m.posts + [Post(rpc, toolName, Claim(m, rpc), Sent, false)];
  }

  lemma DoneReports(m: Meter, i: nat, failed: bool, cancelled: bool)
    requires i < |m.posts| && m.posts[i].probe < |m.probes|
    ensures Done(m, i, failed, cancelled).posts == m.posts[i := m.posts[i].(reported := true)]
  {
  }

  lemma {:induction false} RunKeepsOver(now: int, es: seq<Event>)
    ensures OverIsReported(Run(NewMeter(now), es))
    decreases |es|
  {
    if es == [] {
    } else {
      RunKeepsInv(now, es[..|es| - 1]);
      RunKeepsOver(now, es[..|es| - 1]);
      StepKeepsOver(Run(NewMeter(now), es[..|es| - 1]), es[|es| - 1]);
    }
  }

  // ---- Results, for every run of a new meter ----

  /** However a transfer ends - no response, no body, or the end, failure or cancelling of its body - the post is
      deregistered by then. */
  lemma OverIsDeregistered(now: int, es: seq<Event>, i: nat, failed: bool, cancelled: bool)
    requires i < |Run(NewMeter(now), es).posts|
    ensures var m := Run(NewMeter(now), es);
            && (m.posts[i].phase.Bodyless? || m.posts[i].phase.FetchFailed? ==> i in m.removed && i + 1 !in m.tags)
            && (m.posts[i].phase.Streaming? ==>
                  && i in Step(m, BodyOver(i, failed, cancelled)).removed
                  && i + 1 !in Step(m, BodyOver(i, failed, cancelled)).tags)
  {
    RunKeepsInv(now, es);
    RunKeepsOver(now, es);
    var m := Run(NewMeter(now), es);
    assert PostOk(m, i);
    if m.posts[i].phase.Streaming? { DoneRemoves(m, i, failed, cancelled); }
  }

  lemma DoneRemoves(m: Meter, i: nat, failed: bool, cancelled: bool)
    requires Inv(m) && i < |m.posts| && m.posts[i].probe < |m.probes|
    ensures i in Done(m, i, failed, cancelled).removed && i + 1 !in Done(m, i, failed, cancelled).tags
  {
    assert PostOk(m, i);
  }

  /** Post i's probe is registered under its tag, in flight and not ended, or all three are over for good. */
  lemma RegisteredUntilEnd(now: int, es: seq<Event>, i: nat)
    requires i < |Run(NewMeter(now), es).posts|
    ensures var m := Run(NewMeter(now), es);
            var k := m.posts[i].probe;
            && k < |m.probes|
            && (i + 1 in m.tags <==> m.probes[k].endedAt.None?) && (k in m.inFlight <==> m.probes[k].endedAt.None?)
            && (i + 1 in m.tags ==> m.tags[i + 1] == k)
            && (i in m.removed <==> m.probes[k].endedAt.Some?)
            && (forall t :: t in m.tags ==> 1 <= t <= |m.posts|)
            && (forall a, b :: 0 <= a < b < |m.removed| ==> m.removed[a] != m.removed[b])
  {
    RunKeepsInv(now, es);
    assert PostOk(Run(NewMeter(now), es), i);
  }

  /** A probe serves at most one post, and an armed probe only a resources/read; a watcher gets at most one post,
      one that it asked for, and no post is given to two. */
  lemma TakenAtMostOnce(now: int, es: seq<Event>)
    ensures var m := Run(NewMeter(now), es);
            && (forall i, j :: 0 <= i < j < |m.posts| ==> m.posts[i].probe != m.posts[j].probe)
            && (forall i :: 0 <= i < |m.posts| && m.posts[i].probe < |m.probes|
                            && m.probes[m.posts[i].probe].gate.Some? ==>
                  m.posts[i].rpc == "resources/read")
            && (forall id :: id in m.matched ==> MatchOk(m, id) && id !in m.watchers)
            && (forall id, other :: id in m.matched && other in m.matched ==>
                  m.matched[id] == m.matched[other] ==> id == other)
  {
    RunKeepsInv(now, es);
    var m := Run(NewMeter(now), es);
    forall i | 0 <= i < |m.posts| && m.posts[i].probe < |m.probes| && m.probes[m.posts[i].probe].gate.Some?
      ensures m.posts[i].rpc == "resources/read"
    {
      assert PostOk(m, i);
    }
  }

  /** A waiter for headers is answered once: true if headers arrived, false if the request ended without them. */
  lemma WaitersAnsweredOnce(now: int, es: seq<Event>, k: nat, waiter: nat)
    requires k < |Run(NewMeter(now), es).probes| && waiter < |Run(NewMeter(now), es).probes[k].answers|
    ensures var p := Run(NewMeter(now), es).probes[k];
            p.answers[waiter] == if p.headersAt.None? && p.endedAt.None? then [] else [p.headersAt.Some?]
  {
    RunKeepsInv(now, es);
    assert ProbeOk(Run(NewMeter(now), es).probes[k]);
  }

  /** The gate aborts only a request that was written at least the budget ago, with no body byte and no end. */
  lemma GateAbortsOnlySilence(now: int, es: seq<Event>, k: nat)
    requires k < |Run(NewMeter(now), es).probes| && Run(NewMeter(now), es).probes[k].abort.Some?
    ensures var p := Run(NewMeter(now), es).probes[k];
            && p.gate.Some? && p.writtenAt.Some? && p.abort.value.at >= p.writtenAt.value + p.gate.value
            && !p.abort.value.sawByte && !p.abort.value.sawEnd
  {
    RunKeepsInv(now, es);
    assert ProbeOk(Run(NewMeter(now), es).probes[k]);
  }

  // ---- The classes ----

  class RequestProbe {
    const gate: Option<nat>
    const sentAt: int
    var writtenAt: Option<int>
    var connectedAt: Option<int>
    var headersAt: Option<int>
    var response: Option<Response>
    var firstByteAt: Option<int>
    var lastByteAt: Option<int>
    var bytes: nat
    var endedAt: Option<int>
    var failed: bool
    var cancelled: bool
    var firstByteTimer: Option<int>
    var abort: Option<GateAbort>
    var headerWaiters: seq<nat>
    var answers: seq<seq<bool>>

    ghost function View(): Probe
      reads this
    {
      Probe(gate, sentAt, writtenAt, connectedAt, headersAt, response, firstByteAt, lastByteAt, bytes,
            endedAt, failed, cancelled, firstByteTimer, abort, headerWaiters, answers)
    }

    constructor (firstByteBudgetMs: Option<nat>, now: int)
      ensures View() == NewProbe(firstByteBudgetMs, now)
    {
      gate, sentAt, writtenAt, connectedAt, headersAt, response := firstByteBudgetMs, now, None, None, None, None;
      firstByteAt, lastByteAt, bytes, endedAt, failed, cancelled := None, None, 0, None, false, false;
      firstByteTimer, abort, headerWaiters, answers := None, None, [], [];
    }

    method OnWritten(socketConnectedAt: Option<int>, now: int)
      modifies this
      ensures View() == WrittenAt(old(View()), socketConnectedAt, now)
    {
      if writtenAt.Some? { return; }
      writtenAt := Some(now);
      if socketConnectedAt.Some? && socketConnectedAt.value >= sentAt { connectedAt := socketConnectedAt; }
      if gate.None? || firstByteAt.Some? || endedAt.Some? { return; }
      firstByteTimer := Some(now + gate.value);
    }

    method OnHeaders(res: Response, now: int)
      modifies this
      ensures View() == HeadersAt(old(View()), res, now)
    {
      headersAt, response := Some(now), Some(res);
      SettleHeaderWaiters(true);
    }

    method OnChunk(byteLength: nat, now: int)
      modifies this
      ensures View() == ChunkAt(old(View()), byteLength, now)
    {
      if firstByteAt.None? {
        firstByteAt := Some(now);
        firstByteTimer := None;
      }
      lastByteAt := Some(now);
      bytes := bytes + byteLength;
    }

    method OnEnd(error: bool, cancel: bool, now: int)
      modifies this
      ensures View() == EndedAt(old(View()), error, cancel, now)
    {
      if endedAt.Some? { return; }
      endedAt, failed, cancelled, firstByteTimer := Some(now), error, cancel, None;
      SettleHeaderWaiters(false);
    }

    method HeadersArrived()
      modifies this
      ensures View() == Asked(old(View()))
    {
      if headersAt.Some? {
        answers := answers + [[true]];
      } else if endedAt.Some? {
        answers := answers + [[false]];
      } else {
        headerWaiters, answers := headerWaiters + [|answers|], answers + [[]];
      }
    }

    method OnGate(now: int)
      requires firstByteTimer.Some? && now >= firstByteTimer.value
      modifies this
      ensures View() == GateFired(old(View()), now)
    {
      firstByteTimer := None;
      if abort.None? { abort := Some(GateAbort(now, firstByteAt.Some?, endedAt.Some?)); }
    }

    method SettleHeaderWaiters(arrived: bool)
      modifies this
      ensures View() == Settled(old(View()), arrived)
    {
      var waiters := headerWaiters;
      headerWaiters := [];
      var i := 0;
      while i < |waiters|
        invariant 0 <= i <= |waiters|
        invariant answers == Answered(old(answers), waiters[..i], arrived)
        invariant View() == old(View()).(waiting := [], answers := answers)
      {
        assert waiters[..i + 1][..i] == waiters[..i];
        var k := waiters[i];
        if k < |answers| { answers := answers[k := answers[k] + [arrived]]; }
        i := i + 1;
      }
      assert waiters[..i] == waiters;
    }
  }

  /** Probes are kept by number, so one meter's state is a value. */
  class RequestMeter {
    var now: int
    var probes: seq<Probe>
    var posts: seq<Post>
    var armed: Option<nat>
    var inFlight: set<nat>
    var probesByTag: map<nat, nat>
    var watches: seq<Watch>
    var watchers: seq<nat>
    ghost var matched: map<nat, nat>
    ghost var removed: seq<nat>

    ghost function View(): Meter
      reads this
    {
      Meter(now, probes, posts, armed, inFlight, probesByTag, watches, watchers, matched, removed)
    }

    constructor (now: int)
      ensures View() == NewMeter(now)
    {
      this.now, probes, posts, armed, inFlight, probesByTag := now, [], [], None, {}, map[];
      watches, watchers, matched, removed := [], [], map[], [];
    }

    method Arm(firstByteBudgetMs: nat) returns (probe: nat)
      modifies this
      ensures View() == Step(old(View()), Event.Arm(firstByteBudgetMs)) && probe == |old(probes)|
    {
      probe := |probes|;
      probes := probes + [NewProbe(Some(firstByteBudgetMs), now)];
      armed := Some(probe);
    }

    method Disarm(probe: nat)
      modifies this
      ensures View() == Step(old(View()), Event.Disarm(probe))
    {
      if armed == Some(probe) { armed := None; }
    }

    method WatchFor(rpc: string, toolName: Option<string>) returns (watcher: nat)
      modifies this
      ensures View() == Step(old(View()), WatchNext(Watch(rpc, toolName))) && watcher == |old(watches)|
    {
      watcher := |watches|;
      watches, watchers := watches + [Watch(rpc, toolName)], watchers + [watcher];
    }

    /** The watcher's cancel(). */
    method Cancel(watcher: nat)
      modifies this
      ensures View() == Step(old(View()), CancelWatch(watcher))
    {
      var at := IndexOf(watchers, watcher);
      if at < |watchers| { watchers := Without(watchers, at); }
    }

    /** The place of the first matching watcher. */
    method FindWatcher(rpc: string, toolName: Option<string>) returns (at: nat)
      ensures at == FirstMatch(watches, watchers, rpc, toolName)
    {
      at := 0;
      while at < |watchers|
        invariant at <= |watchers|
        invariant FirstMatch(watches, watchers, rpc, toolName)
               == at + FirstMatch(watches, watchers[at..], rpc, toolName)
      {
        assert watchers[at..][1..] == watchers[at + 1..];
        if watchers[at] < |watches| && Matches(watches[watchers[at]], rpc, toolName) { return; }
        at := at + 1;
      }
    }

    /** The armed probe where one is armed for this method, else a passive one. */
    method TakeProbe(rpc: string) returns (probe: nat)
      modifies this
      ensures View() == Claimed(old(View()), rpc) && probe == Claim(old(View()), rpc)
    {
      if rpc == "resources/read" && armed.Some? {
        probe, armed := armed.value, None;
      } else {
        probe, probes := |probes|, probes + [NewProbe(None, now)];
      }
    }

    /** The first watcher that asked for the post is resolved with it. */
    method ResolveWatcher(i: nat, rpc: string, toolName: Option<string>)
      modifies this
      ensures View() == Noticed(old(View()), i, rpc, toolName)
    {
      var at := FindWatcher(rpc, toolName);
      if at < |watchers| {
        matched := matched[watchers[at] := i];
        watchers := Without(watchers, at);
      }
    }

    /** The tag finds the probe from now on. */
    method Register(post: Post)
      modifies this
      ensures View() == Registered(old(View()), post)
    {
      posts := posts + [post];
      probesByTag := probesByTag[|posts| := post.probe];
      inFlight := inFlight + {post.probe};
    }

    /** The wrapped fetch up to its first await; what is not a POST passes through. */
    method Fetch(isPost: bool, rpc: string, toolName: Option<string>) returns (post: Option<nat>)
      modifies this
      ensures View() == if isPost then Step(old(View()), Send(rpc, toolName)) else old(View())
      ensures post == if isPost then Some(|old(posts)|) else None
    {
      if !isPost { return None; }
      post := Some(|posts|);
      var probe := TakeProbe(rpc);
      ResolveWatcher(|posts|, rpc, toolName);
      Register(Post(rpc, toolName, probe, Sent, false));
    }

    /** done() */
    method RunDone(i: nat, failed: bool, cancelled: bool)
      requires i < |posts| && posts[i].probe < |probes|
      modifies this
      ensures View() == Done(old(View()), i, failed, cancelled)
    {
      var post := posts[i];
      if post.reported { return; }
      posts := posts[i := post.(reported := true)];
      probes := probes[post.probe := EndedAt(probes[post.probe], failed, cancelled, now)];
      probesByTag := probesByTag - {i + 1};
      inFlight := inFlight - {post.probe};
      removed := removed + [i];
    }

    /** The fetch's response, with a body to count or without one. */
    method OnResponse(i: nat, body: bool, response: Response)
      requires At(View(), i, Sent)
      modifies this
      ensures View() == Step(old(View()), Headers(i, body, response))
    {
      var probe := posts[i].probe;
      probes := probes[probe := HeadersAt(probes[probe], response, now)];
      posts := posts[i := posts[i].(phase := if body then Streaming else Bodyless)];
      if !body { RunDone(i, false, false); }
    }

    /** The fetch's rejection. */
    method OnFetchThrew(i: nat)
      requires At(View(), i, Sent)
      modifies this
      ensures View() == Step(old(View()), FetchThrew(i))
    {
      posts := posts[i := posts[i].(phase := FetchFailed)];
      RunDone(i, true, false);
    }

    /** The response body ended, broke off or was cancelled. */
    method OnBodyOver(i: nat, failed: bool, cancelled: bool)
      requires At(View(), i, Streaming)
      modifies this
      ensures View() == Step(old(View()), BodyOver(i, failed, cancelled))
    {
      RunDone(i, failed, cancelled);
    }
  }
}
