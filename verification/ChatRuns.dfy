/** Concurrent chat runs and snapshot requests over one store, under the default ownership check.
    Code between two awaits is one step. */
module ChatRuns {
  import opened Options
  import opened ChatStore

  /** A stored message, with the run that appended it. */
  datatype Tagged = Tagged(run: nat, message: string)

  /** Where a run's code stands: before the chat-allocated event, in the adapter or the interceptor, in a live write,
      over. */
  datatype Phase = Allocated | Running | Writing(message: string) | Ended

  /** stored: what this run appended; live: what its own client received. */
  datatype Run = Run(owner: string, chatId: string, phase: Phase, announced: bool, aborted: bool, open: bool,
                     stored: seq<string>, live: seq<string>)

  /** Messages of a snapshot are those stored; sent are their texts after each was re-inlined for this reply. */
  datatype Reply =
    | BadRequest
    | NotFound
    | Forbidden(to: string)
    | Snapshot(to: string, chatId: string, messages: seq<Tagged>, sent: seq<string>)

  datatype World = World(chats: Chats<Tagged>, runs: seq<Run>, replies: seq<Reply>)

  /** What re-inlining makes of the k-th stored message of a snapshot; it may also leave it as it is. */
  type Inline = (nat, string) -> string

  /** supplied is "" when the request names no chat; minted is the id drawn for it then. */
  datatype Event =
    | Post(owner: string, supplied: string, minted: string, now: int)
    | Announce(run: nat)
    | Yields(run: nat, message: string, now: int)
    | Written(run: nat)
    | Abort(run: nat)
    | Disconnect(run: nat)
    | Finish(run: nat)
    | Get(principal: string, chatId: string, inline: Inline)

  predicate Refused(chats: Chats<Tagged>, owner: string, supplied: string) {
    supplied != "" && supplied in chats && chats[supplied].row.ownerId != owner
  }

  function Target(supplied: string, minted: string): string { if supplied != "" then supplied else minted }

  function Posted(w: World, owner: string, supplied: string, minted: string, now: int): World {
    if Refused(w.chats, owner, supplied) then w.(replies := w.replies + [Forbidden(owner)])
    else
      var id := Target(supplied, minted);
      w.(chats := Ensured(w.chats, id, owner, now),
         runs := w.runs + [Run(owner, id, Allocated, false, false, true, [], [])])
  }

  /** The intercepted message is stored, then written unless the run was aborted meanwhile. */
  function Stored(w: World, i: nat, message: string, now: int): World
    requires i < |w.runs|
  {
    var r := w.runs[i];
    w.(chats := Appended(w.chats, r.chatId, r.owner, Tagged(i, message), now),
       runs := w.runs[i := r.(stored := r.stored + [message], phase := if r.aborted then Ended else Writing(message))])
  }

  /** The steps that concern one run and its client only. */
  function Turned(r: Run, e: Event): Run {
    match e
    case Announce(_) => if r.phase.Allocated? then r.(phase := Running, announced := true) else r
    case Written(_) =>
      if !r.phase.Writing? then r
      else r.(phase := Running, live := if r.open then r.live + [r.phase.message] else r.live)
    case Abort(_) => r.(aborted := true)
    case Disconnect(_) => r.(open := false)
    case Finish(_) => if r.phase.Running? then r.(phase := Ended) else r
    case _ => r
  }

  function Inlined(ms: seq<Tagged>, inline: Inline): (r: seq<string>)
    ensures |r| == |ms| && forall k :: 0 <= k < |ms| ==> r[k] == inline(k, ms[k].message)
  {
    seq(|ms|, k requires 0 <= k < |ms| => inline(k, ms[k].message))
  }

  function SnapshotReply(chats: Chats<Tagged>, principal: string, chatId: string, inline: Inline): Reply {
    if chatId == "" then BadRequest
    else if chatId !in chats then NotFound
    else if chats[chatId].row.ownerId != principal then Forbidden(principal)
    else Snapshot(principal, chatId, chats[chatId].messages, Inlined(chats[chatId].messages, inline))
  }

  function Turn(w: World, i: nat, e: Event): World {
    if i < |w.runs| then w.(runs := w.runs[i := Turned(w.runs[i], e)]) else w
  }

  /** A step that cannot happen yet changes nothing. */
  function Step(w: World, e: Event): World {
    match e
    case Post(owner, supplied, minted, now) => Posted(w, owner, supplied, minted, now)
    case Get(principal, chatId, inline) =>
      w.(replies := w.replies + [SnapshotReply(w.chats, principal, chatId, inline)])
    case Yields(i, message, now) =>
      if i < |w.runs| && w.runs[i].phase.Running? then Stored(w, i, message, now) else w
    case Announce(i) => Turn(w, i, e)
    case Written(i) => Turn(w, i, e)
    case Abort(i) => Turn(w, i, e)
    case Disconnect(i) => Turn(w, i, e)
    case Finish(i) => Turn(w, i, e)
  }

  const START := World(map[], [], [])

  /** Every interleaving of requests and runs is a sequence of steps. */
  function After(w: World, es: seq<Event>): World {
    if es == [] then w else Step(After(w, es[..|es| - 1]), es[|es| - 1])
  }

  lemma {:induction false} AfterAppend(w: World, a: seq<Event>, b: seq<Event>)
    ensures After(w, a + b) == After(After(w, a), b)
    decreases |b|
  {
    if b == [] {
      assert a + b == a;
    } else {
      assert (a + b)[..|a + b| - 1] == a + b[..|b| - 1];
      AfterAppend(w, a, b[..|b| - 1]);
    }
  }

  // ---- The store only grows ----

  lemma StepExtends(w: World, e: Event)
    ensures Grows(w, Step(w, e))
  {
    match e
    case Post(owner, supplied, minted, now) => EnsuredExtends(w.chats, Target(supplied, minted), owner, now);
    case Yields(i, message, now) =>
      if i < |w.runs| { AppendedExtends(w.chats, w.runs[i].chatId, w.runs[i].owner, Tagged(i, message), now); }
    case Get(_, _, _) =>
    case Announce(i) => TurnGrows(w, i, e);
    case Written(i) => TurnGrows(w, i, e);
    case Abort(i) => TurnGrows(w, i, e);
    case Disconnect(i) => TurnGrows(w, i, e);
    case Finish(i) => TurnGrows(w, i, e);
  }

  lemma TurnGrows(w: World, i: nat, e: Event)
    ensures Grows(w, Turn(w, i, e))
  {
    if i < |w.runs| { assert SameRun(w.runs[i], Turned(w.runs[i], e)); }
  }

  predicate SameRun(r: Run, s: Run) { s.owner == r.owner && s.chatId == r.chatId && (r.announced ==> s.announced) }

  ghost predicate Grows(w: World, v: World) {
    && Extends(w.chats, v.chats) && |w.runs| <= |v.runs| && w.replies <= v.replies
    && forall i :: 0 <= i < |w.runs| ==> SameRun(w.runs[i], v.runs[i])
  }

  lemma GrowsThrough(w: World, v: World, u: World)
    requires Grows(w, v) && Grows(v, u)
    ensures Grows(w, u)
  {
    forall id | id in w.chats ensures id in u.chats && w.chats[id].messages <= u.chats[id].messages {
      assert id in v.chats;
    }
  }

  /** In every run a chat keeps its owner and its creation time, its messages stay where they are, and so do the
      replies. */
  lemma {:induction false} StoreOnlyGrows(w: World, es: seq<Event>)
    ensures Grows(w, After(w, es))
    decreases |es|
  {
    if es == [] {
    } else {
      var v := After(w, es[..|es| - 1]);
      StoreOnlyGrows(w, es[..|es| - 1]);
      StepExtends(v, es[|es| - 1]);
      GrowsThrough(w, v, After(w, es));
    }
  }

  // ---- What each chat holds ----

  /** The messages that one run appended. */
  function From(ms: seq<Tagged>, run: nat): seq<string> {
    if ms == [] then []
    else From(ms[..|ms| - 1], run) + if ms[|ms| - 1].run == run then [ms[|ms| - 1].message] else []
  }

  ghost predicate RunOk(chats: Chats<Tagged>, i: nat, r: Run) {
    && r.chatId in chats
    && From(chats[r.chatId].messages, i) == r.stored
    && r.live <= r.stored
    && (r.open && r.phase.Writing? ==> r.stored == r.live + [r.phase.message])
    && (r.open && (r.phase.Allocated? || r.phase.Running?) ==> r.stored == r.live)
    && (r.announced <==> !r.phase.Allocated?)
    && (r.phase.Allocated? ==> r.stored == [])
  }

  ghost predicate TagOk(runs: seq<Run>, id: string, m: Tagged) { m.run < |runs| && runs[m.run].chatId == id }

  ghost predicate ReplyOk(chats: Chats<Tagged>, r: Reply) {
    r.Snapshot? ==>
      && r.chatId in chats && chats[r.chatId].row.ownerId == r.to
      && r.messages <= chats[r.chatId].messages && |r.sent| == |r.messages|
  }

  ghost predicate Inv(w: World) {
    && WellKeyed(w.chats)
    && (forall i :: 0 <= i < |w.runs| ==> RunOk(w.chats, i, w.runs[i]))
    && (forall id, k :: id in w.chats && 0 <= k < |w.chats[id].messages| ==> TagOk(w.runs, id, w.chats[id].messages[k]))
    && (forall k :: 0 <= k < |w.replies| ==> ReplyOk(w.chats, w.replies[k]))
  }

  lemma {:induction false} FromOthers(ms: seq<Tagged>, run: nat)
    requires forall k :: 0 <= k < |ms| ==> ms[k].run != run
    ensures From(ms, run) == []
    decreases |ms|
  {
    if ms == [] {
    } else {
      FromOthers(ms[..|ms| - 1], run);
    }
  }

  lemma FromSnoc(ms: seq<Tagged>, m: Tagged, run: nat)
    ensures From(ms + [m], run) == From(ms, run) + if m.run == run then [m.message] else []
  {
    assert (ms + [m])[..|ms|] == ms;
  }

  lemma RepliesKeep(w: World, v: World)
    requires Inv(w) && Extends(w.chats, v.chats) && v.replies == w.replies
    ensures forall k :: 0 <= k < |v.replies| ==> ReplyOk(v.chats, v.replies[k])
  {
    forall k | 0 <= k < |v.replies| ensures ReplyOk(v.chats, v.replies[k]) { assert ReplyOk(w.chats, w.replies[k]); }
  }

  lemma PostKeepsInv(w: World, owner: string, supplied: string, minted: string, now: int)
    requires Inv(w)
    ensures Inv(Posted(w, owner, supplied, minted, now))
  {
    var v := Posted(w, owner, supplied, minted, now);
    if !Refused(w.chats, owner, supplied) {
      var id := Target(supplied, minted);
      EnsuredExtends(w.chats, id, owner, now);
      RepliesKeep(w, v);
      forall i | 0 <= i < |v.runs| ensures RunOk(v.chats, i, v.runs[i]) {
        if i < |w.runs| { assert RunOk(w.chats, i, w.runs[i]); } else { FromOthers(v.chats[id].messages, i); }
      }
      forall c, k | c in v.chats && 0 <= k < |v.chats[c].messages| ensures TagOk(v.runs, c, v.chats[c].messages[k]) {
        assert TagOk(w.runs, c, w.chats[c].messages[k]);
      }
    }
  }

  lemma StoredKeepsInv(w: World, i: nat, message: string, now: int)
    requires Inv(w) && i < |w.runs| && w.runs[i].phase.Running?
    ensures Inv(Stored(w, i, message, now))
  {
    var v := Stored(w, i, message, now);
    var id := w.runs[i].chatId;
    assert RunOk(w.chats, i, w.runs[i]);
    AppendedExtends(w.chats, id, w.runs[i].owner, Tagged(i, message), now);
    RepliesKeep(w, v);
    forall j | 0 <= j < |v.runs| ensures RunOk(v.chats, j, v.runs[j]) {
      assert RunOk(w.chats, j, w.runs[j]);
      FromSnoc(w.chats[id].messages, Tagged(i, message), j);
    }
    forall c, k | c in v.chats && 0 <= k < |v.chats[c].messages| ensures TagOk(v.runs, c, v.chats[c].messages[k]) {
      if c != id || k < |w.chats[c].messages| { assert TagOk(w.runs, c, w.chats[c].messages[k]); }
    }
  }

  lemma TurnedIsOk(chats: Chats<Tagged>, i: nat, r: Run, e: Event)
    requires RunOk(chats, i, r)
    ensures RunOk(chats, i, Turned(r, e)) && SameRun(r, Turned(r, e))
  {
  }

  lemma TurnKeepsInv(w: World, i: nat, e: Event)
    requires Inv(w)
    ensures Inv(Turn(w, i, e))
  {
    if i < |w.runs| {
      var v := Turn(w, i, e);
      RepliesKeep(w, v);
      forall j | 0 <= j < |v.runs| ensures RunOk(v.chats, j, v.runs[j]) && SameRun(w.runs[j], v.runs[j]) {
        assert RunOk(w.chats, j, w.runs[j]);
        if j == i { TurnedIsOk(w.chats, i, w.runs[i], e); }
      }
      forall c, k | c in v.chats && 0 <= k < |v.chats[c].messages| ensures TagOk(v.runs, c, v.chats[c].messages[k]) {
        assert TagOk(w.runs, c, w.chats[c].messages[k]);
      }
    }
  }

  lemma GetKeepsInv(w: World, principal: string, chatId: string, inline: Inline)
    requires Inv(w)
    ensures Inv(Step(w, Event.Get(principal, chatId, inline)))
  {
    var v := Step(w, Event.Get(principal, chatId, inline));
    forall k | 0 <= k < |v.replies| ensures ReplyOk(v.chats, v.replies[k]) {
      if k < |w.replies| { assert ReplyOk(w.chats, w.replies[k]); }
    }
  }

  lemma StepKeepsInv(w: World, e: Event)
    requires Inv(w)
    ensures Inv(Step(w, e))
  {
    match e
    case Post(owner, supplied, minted, now) => PostKeepsInv(w, owner, supplied, minted, now);
    case Get(principal, chatId, inline) => GetKeepsInv(w, principal, chatId, inline);
    case Yields(i, message, now) => if i < |w.runs| && w.runs[i].phase.Running? { StoredKeepsInv(w, i, message, now); }
    case Announce(i) => TurnKeepsInv(w, i, e);
    case Written(i) => TurnKeepsInv(w, i, e);
    case Abort(i) => TurnKeepsInv(w, i, e);
    case Disconnect(i) => TurnKeepsInv(w, i, e);
    case Finish(i) => TurnKeepsInv(w, i, e);
  }

  lemma {:induction false} RunKeepsInv(w: World, es: seq<Event>)
    requires Inv(w)
    ensures Inv(After(w, es))
    decreases |es|
  {
    if es == [] {
    } else {
      RunKeepsInv(w, es[..|es| - 1]);
      StepKeepsInv(After(w, es[..|es| - 1]), es[|es| - 1]);
    }
  }

  // ---- Results, for every run from an empty store ----

  /** A chat's messages are an order-preserving interleaving of what its runs stored: every message belongs to a run of
      this chat, and each run's messages are there, in order and no others. Its client saw a prefix of them: all of
      them while it is connected and no write is under way, and none before the chat-allocated event. */
  lemma MessagesInterleave(es: seq<Event>, i: nat)
    requires i < |After(START, es).runs|
    ensures var w := After(START, es);
            var r := w.runs[i];
            && r.chatId in w.chats
            && From(w.chats[r.chatId].messages, i) == r.stored
            && r.live <= r.stored
            && (r.open && (r.phase.Allocated? || r.phase.Running?) ==> r.live == r.stored)
            && (!r.announced ==> r.stored == [])
            && forall k :: 0 <= k < |w.chats[r.chatId].messages| ==>
                 TagOk(w.runs, r.chatId, w.chats[r.chatId].messages[k])
  {
    RunKeepsInv(START, es);
    var w := After(START, es);
    assert RunOk(w.chats, i, w.runs[i]);
  }

  /** Every snapshot went to the owner of the chat, and shows, one text for each, the first messages the chat has at any
      later time. */
  lemma SnapshotsGoToTheOwner(es: seq<Event>, later: seq<Event>, k: nat)
    requires k < |After(START, es).replies| && After(START, es).replies[k].Snapshot?
    ensures var r := After(START, es).replies[k];
            var w := After(START, es + later);
            && r.chatId in w.chats && w.chats[r.chatId].row.ownerId == r.to
            && r.messages <= w.chats[r.chatId].messages && |r.sent| == |r.messages|
  {
    RunKeepsInv(START, es);
    var v := After(START, es);
    assert ReplyOk(v.chats, v.replies[k]);
    AfterAppend(START, es, later);
    StoreOnlyGrows(v, later);
  }

  /** An id sent in chat-allocated stays in the store. */
  lemma AllocatedStays(es: seq<Event>, later: seq<Event>, i: nat)
    requires i < |After(START, es).runs| && After(START, es).runs[i].announced
    ensures After(START, es).runs[i].chatId in After(START, es + later).chats
  {
    RunKeepsInv(START, es);
    var v := After(START, es);
    assert RunOk(v.chats, i, v.runs[i]);
    AfterAppend(START, es, later);
    StoreOnlyGrows(v, later);
  }

  /** Every run writes to a chat of its own principal. */
  ghost predicate Owned(w: World) {
    forall i :: 0 <= i < |w.runs| ==> OwnedRun(w.chats, w.runs[i])
  }

  ghost predicate OwnedRun(chats: Chats<Tagged>, r: Run) { r.chatId in chats && chats[r.chatId].row.ownerId == r.owner }

  /** A minted id is new, or happens to be one of the caller's own. Nothing is asked of ids that clients supply. */
  ghost predicate FreshMint(w: World, e: Event) {
    e.Post? && e.supplied == "" && e.minted in w.chats ==> w.chats[e.minted].row.ownerId == e.owner
  }

  ghost predicate FreshMints(w: World, es: seq<Event>) {
    es == [] || (FreshMints(w, es[..|es| - 1]) && FreshMint(After(w, es[..|es| - 1]), es[|es| - 1]))
  }

  lemma OwnedStepIff(w: World, e: Event)
    requires Inv(w)
    ensures Owned(Step(w, e)) <==> Owned(w) && FreshMint(w, e)
  {
    var v := Step(w, e);
    StepExtends(w, e);
    StepKeepsInv(w, e);
    forall i | 0 <= i < |w.runs| ensures OwnedRun(v.chats, v.runs[i]) <==> OwnedRun(w.chats, w.runs[i]) {
      assert RunOk(w.chats, i, w.runs[i]);
      assert SameRun(w.runs[i], v.runs[i]);
    }
    if e.Post? && !Refused(w.chats, e.owner, e.supplied) {
      assert v.runs[|w.runs|].owner == e.owner;
      assert OwnedRun(v.chats, v.runs[|w.runs|]) <==> FreshMint(w, e);
    } else {
      assert |v.runs| == |w.runs|;
    }
  }

  /** Over all interleavings, every run writes to a chat of its own principal exactly when minted ids were fresh. */
  lemma {:induction false} OwnedIff(es: seq<Event>)
    ensures Owned(After(START, es)) <==> FreshMints(START, es)
    decreases |es|
  {
    if es == [] {
    } else {
      var init := es[..|es| - 1];
      OwnedIff(init);
      RunKeepsInv(START, init);
      OwnedStepIff(After(START, init), es[|es| - 1]);
    }
  }

  /** With fresh ids every message was stored by a run of the chat's owner. */
  lemma MessagesAreTheOwners(es: seq<Event>, id: string, k: nat)
    requires FreshMints(START, es)
    requires id in After(START, es).chats && k < |After(START, es).chats[id].messages|
    ensures var w := After(START, es);
            var m := w.chats[id].messages[k];
            m.run < |w.runs| && w.runs[m.run].chatId == id && w.runs[m.run].owner == w.chats[id].row.ownerId
  {
    RunKeepsInv(START, es);
    OwnedIff(es);
    var w := After(START, es);
    assert TagOk(w.runs, id, w.chats[id].messages[k]);
    assert OwnedRun(w.chats, w.runs[w.chats[id].messages[k].run]);
  }

  // ---- The store and the replies, from the events ----

  /** The request is for this chat: it names the id, or names none and draws it. */
  predicate PostsTo(e: Event, id: string) {
    e.Post? && ((e.supplied != "" && e.supplied == id) || (e.supplied == "" && e.minted == id))
  }

  /** The principal of the first request for the chat. */
  function OwnerIn(es: seq<Event>, id: string): Option<string> {
    if es == [] then None
    else
      var before := OwnerIn(es[..|es| - 1], id);
      if before.None? && PostsTo(es[|es| - 1], id) then Some(es[|es| - 1].owner) else before
  }

  /** The id names a chat of another principal. */
  predicate IsAnothers(es: seq<Event>, id: string, owner: string) {
    id != "" && OwnerIn(es, id).Some? && OwnerIn(es, id) != Some(owner)
  }

  /** The accepted requests, in order: each starts a run for this principal in this chat. */
  function Accepted(es: seq<Event>): seq<(string, string)> {
    if es == [] then []
    else
      var pre, e := es[..|es| - 1], es[|es| - 1];
      if e.Post? && !IsAnothers(pre, e.supplied, e.owner)
      then Accepted(pre) + [(e.owner, if e.supplied == "" then e.minted else e.supplied)]
      else Accepted(pre)
  }

  predicate IsRunning(es: seq<Event>, i: nat) {
    i < |After(START, es).runs| && After(START, es).runs[i].phase.Running?
  }

  /** The messages that running runs of the chat yielded, in order. */
  function MessagesIn(es: seq<Event>, id: string): seq<Tagged> {
    if es == [] then []
    else
      var pre, e := es[..|es| - 1], es[|es| - 1];
      if e.Yields? && e.run < |Accepted(pre)| && Accepted(pre)[e.run].1 == id && IsRunning(pre, e.run)
      then MessagesIn(pre, id) + [Tagged(e.run, e.message)]
      else MessagesIn(pre, id)
  }

  ghost predicate RunsMatch(w: World, es: seq<Event>) {
    |w.runs| == |Accepted(es)|
    && forall i :: 0 <= i < |w.runs| ==> (w.runs[i].owner, w.runs[i].chatId) == Accepted(es)[i]
  }

  ghost predicate ChatIs(w: World, es: seq<Event>, id: string) {
    && (id in w.chats <==> OwnerIn(es, id).Some?)
    && (id in w.chats ==> w.chats[id].row.ownerId == OwnerIn(es, id).value)
    && MessagesIn(es, id) == if id in w.chats then w.chats[id].messages else []
  }

  ghost predicate Recorded(w: World, es: seq<Event>) { RunsMatch(w, es) && forall id :: ChatIs(w, es, id) }

  lemma SnocIs(pre: seq<Event>, e: Event, id: string)
    ensures var es := pre + [e];
            && OwnerIn(es, id) == (if OwnerIn(pre, id).None? && PostsTo(e, id) then Some(e.owner) else OwnerIn(pre, id))
            && Accepted(es) == Accepted(pre) + (if e.Post? && !IsAnothers(pre, e.supplied, e.owner)
                                                then [(e.owner, if e.supplied == "" then e.minted else e.supplied)]
                                                else [])
            && MessagesIn(es, id) == MessagesIn(pre, id)
                 + (if e.Yields? && e.run < |Accepted(pre)| && Accepted(pre)[e.run].1 == id && IsRunning(pre, e.run)
                    then [Tagged(e.run, e.message)] else [])
  {
    assert (pre + [e])[..|pre|] == pre;
  }

  lemma RecordedStep(pre: seq<Event>, e: Event)
    requires Recorded(After(START, pre), pre)
    ensures Recorded(Step(After(START, pre), e), pre + [e])
  {
    var w := After(START, pre);
    var v := Step(w, e);
    RunKeepsInv(START, pre);
    StepExtends(w, e);
    SnocIs(pre, e, "");
    if e.Post? { assert ChatIs(w, pre, e.supplied); }
    assert RunsMatch(v, pre + [e]) by {
      forall i | 0 <= i < |w.runs| ensures SameRun(w.runs[i], v.runs[i]) { }
    }
    forall id ensures ChatIs(v, pre + [e], id) {
      assert ChatIs(w, pre, id);
      SnocIs(pre, e, id);
      RecordedChat(pre, e, id);
    }
  }

  lemma RecordedChat(pre: seq<Event>, e: Event, id: string)
    requires Recorded(After(START, pre), pre)
    ensures ChatIs(Step(After(START, pre), e), pre + [e], id)
  {
    var w := After(START, pre);
    assert ChatIs(w, pre, id);
    SnocIs(pre, e, id);
    if e.Post? { assert ChatIs(w, pre, e.supplied); }
    if e.Yields? && e.run < |w.runs| {
      RunKeepsInv(START, pre);
      assert RunOk(w.chats, e.run, w.runs[e.run]);
    }
  }

  lemma {:induction false} RunIsRecorded(es: seq<Event>)
    ensures Recorded(After(START, es), es)
    decreases |es|
  {
    if es == [] {
    } else {
      RunIsRecorded(es[..|es| - 1]);
      RecordedStep(es[..|es| - 1], es[|es| - 1]);
      assert es == es[..|es| - 1] + [es[|es| - 1]];
    }
  }

  /** The store after any events: a chat for each id a request was for, of the first such request's principal, with
      what its runs yielded. */
  lemma StoreIs(es: seq<Event>, id: string)
    ensures ChatIs(After(START, es), es, id)
  {
    RunIsRecorded(es);
  }

  /** The reply to a snapshot request: a refusal, or all the chat's messages, each re-inlined. */
  ghost predicate Answers(es: seq<Event>, principal: string, id: string, inline: Inline, r: Reply) {
    match r
    case BadRequest => id == ""
    case NotFound => id != "" && OwnerIn(es, id) == None
    case Forbidden(to) => IsAnothers(es, id, principal) && to == principal
    case Snapshot(to, chatId, messages, sent) =>
      && id != "" && OwnerIn(es, id) == Some(principal)
      && to == principal && chatId == id && messages == MessagesIn(es, id)
      && |sent| == |messages|
      && forall k :: 0 <= k < |messages| ==> sent[k] == inline(k, messages[k].message)
  }

  lemma GetStep(pre: seq<Event>, principal: string, id: string, inline: Inline)
    ensures var w := After(START, pre);
            var v := Step(w, Event.Get(principal, id, inline));
            |v.replies| == |w.replies| + 1 && Answers(pre, principal, id, inline, v.replies[|w.replies|])
  {
    StoreIs(pre, id);
  }

  /** Every snapshot request in every run gets that reply, and keeps it: the owner all the messages of that moment,
      anyone else a refusal. */
  lemma GetIff(pre: seq<Event>, principal: string, id: string, inline: Inline, post: seq<Event>)
    ensures var n := |After(START, pre).replies|;
            var w := After(START, pre + [Event.Get(principal, id, inline)] + post);
            n < |w.replies| && Answers(pre, principal, id, inline, w.replies[n])
  {
    var v := Step(After(START, pre), Event.Get(principal, id, inline));
    GetStep(pre, principal, id, inline);
    AfterThen(START, pre, Event.Get(principal, id, inline), post);
    StoreOnlyGrows(v, post);
  }

  lemma AfterThen(w: World, pre: seq<Event>, e: Event, post: seq<Event>)
    ensures After(w, pre + [e] + post) == After(Step(After(w, pre), e), post)
  {
    assert (pre + [e])[..|pre|] == pre;
    AfterAppend(w, pre + [e], post);
  }

  /** A chat request is refused exactly when it names a chat of another principal; otherwise it starts a run for its own
      principal in the chat it names, or in the one it drew. */
  lemma PostIff(es: seq<Event>, owner: string, supplied: string, minted: string, now: int)
    ensures var w := After(START, es);
            var v := After(START, es + [Post(owner, supplied, minted, now)]);
            if IsAnothers(es, supplied, owner)
            then v == w.(replies := w.replies + [Forbidden(owner)])
            else
              && v.replies == w.replies
              && |v.runs| == |w.runs| + 1 && v.runs[..|w.runs|] == w.runs
              && var r := v.runs[|w.runs|];
                 && r.owner == owner && r.chatId == (if supplied == "" then minted else supplied)
                 && r.phase.Allocated? && r.stored == [] && r.live == [] && r.open && !r.aborted
  {
    StoreIs(es, supplied);
    assert (es + [Post(owner, supplied, minted, now)])[..|es|] == es;
  }

  /** What each event does to each run: announced, then message after message stored and written, until it finishes or
      stores one after an abort. A client that is gone receives nothing. */
  lemma RunMoves(w: World, e: Event, i: nat)
    requires i < |w.runs|
    ensures i < |Step(w, e).runs|
    ensures var r, s := w.runs[i], Step(w, e).runs[i];
            && s.phase == (if e == Announce(i) && r.phase.Allocated? then Running
                           else if e.Yields? && e.run == i && r.phase.Running?
                           then (if r.aborted then Ended else Writing(e.message))
                           else if e == Written(i) && r.phase.Writing? then Running
                           else if e == Finish(i) && r.phase.Running? then Ended
                           else r.phase)
            && (s.aborted <==> r.aborted || e == Abort(i))
            && (s.open <==> r.open && e != Disconnect(i))
            && s.stored == r.stored + (if e.Yields? && e.run == i && r.phase.Running? then [e.message] else [])
            && s.live == r.live + (if e == Written(i) && r.phase.Writing? && r.open then [r.phase.message] else [])
  {
  }

  // ---- After an abort ----

  /** How many messages the run may still store, and still write. */
  function StoresLeft(r: Run): nat { if r.phase.Ended? then 0 else 1 }

  function WritesLeft(r: Run): nat { if r.phase.Writing? then 1 else 0 }

  /** What the run stores and writes from here on stays within that. */
  ghost predicate WindsDown(r: Run, s: Run) {
    && s.aborted && r.stored <= s.stored && r.live <= s.live
    && |s.stored| + StoresLeft(s) <= |r.stored| + StoresLeft(r)
    && |s.live| + WritesLeft(s) <= |r.live| + WritesLeft(r)
  }

  /** Once aborted, a run stores at most one more message, none if it is over, and writes none but the one being
      written then. */
  lemma {:induction false} AbortEndsRun(w: World, later: seq<Event>, i: nat)
    requires i < |w.runs| && w.runs[i].aborted
    ensures i < |After(w, later).runs| && WindsDown(w.runs[i], After(w, later).runs[i])
    decreases |later|
  {
    if later == [] {
    } else {
      AbortEndsRun(w, later[..|later| - 1], i);
    }
  }

  // ---- The handlers ----

  class AgentApp {
    const store: InMemoryChatStore<Tagged>
    var runs: seq<Run>
    var replies: seq<Reply>

    ghost function View(): World
      reads this, store
    {
      World(store.chats, runs, replies)
    }

    constructor ()
      ensures View() == START && fresh(store)
    {
      store := new InMemoryChatStore();
      runs, replies := [], [];
    }

    /** POST /agent of kind chat, up to its first await. */
    method PostChat(owner: string, supplied: string, minted: string, now: int)
      modifies this, store
      ensures View() == Step(old(View()), Post(owner, supplied, minted, now))
    {
      var chatId := minted;
      if supplied != "" {
        var existing := store.Get(supplied);
        if existing.Some? && existing.value.row.ownerId != owner {
          replies := replies + [Forbidden(owner)];
          return;
        }
        chatId := supplied;
      }
      store.Ensure(chatId, owner, now);
      runs := runs + [Run(owner, chatId, Allocated, false, false, true, [], [])];
    }

    /** The chat-allocated event. */
    method SendAllocated(i: nat)
      requires i < |runs| && runs[i].phase.Allocated?
      modifies this
      ensures View() == Step(old(View()), Announce(i))
    {
      runs := runs[i := runs[i].(phase := Running, announced := true)];
    }

    /** One turn of the loop, from the interceptor's result to the live write. */
    method OnMessage(i: nat, message: string, now: int)
      requires i < |runs| && runs[i].phase.Running?
      modifies this, store
      ensures View() == Step(old(View()), Yields(i, message, now))
    {
      var r := runs[i];
      store.Append(r.chatId, r.owner, Tagged(i, message), now);
      var phase := Writing(message);
      if r.aborted { phase := Ended; }
      runs := runs[i := r.(stored := r.stored + [message], phase := phase)];
    }

    method OnWritten(i: nat)
      requires i < |runs| && runs[i].phase.Writing?
      modifies this
      ensures View() == Step(old(View()), Written(i))
    {
      var r := runs[i];
      if r.open { r := r.(live := r.live + [r.phase.message]); }
      runs := runs[i := r.(phase := Running)];
    }

    /** GET /agent: the messages are taken here, the reply with their re-inlined texts follows. */
    method GetAgent(principal: string, chatId: string, inline: Inline)
      modifies this
      ensures View() == Step(old(View()), Event.Get(principal, chatId, inline))
    {
      var reply := BadRequest;
      if chatId != "" {
        var rec := store.Get(chatId);
        if rec.None? {
          reply := NotFound;
        } else if rec.value.row.ownerId != principal {
          reply := Forbidden(principal);
        } else {
          var sent: seq<string> := [];
          for k := 0 to |rec.value.messages|
            invariant |sent| == k && forall j :: 0 <= j < k ==> sent[j] == inline(j, rec.value.messages[j].message)
          {
            sent := sent + [inline(k, rec.value.messages[k].message)];
          }
          assert sent == Inlined(rec.value.messages, inline);
          reply := Snapshot(principal, chatId, rec.value.messages, sent);
        }
      }
      replies := replies + [reply];
    }
  }
}
