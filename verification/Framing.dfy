/** Cutting a text at a separator while the text is still arriving in chunks.
    The log-line splitter and both SSE readers are instances. */
module Framing {

  ghost predicate OccursAt<T>(s: seq<T>, sep: seq<T>, i: nat) {
    i + |sep| <= |s| && s[i..i + |sep|] == sep
  }

  ghost predicate Contains<T>(s: seq<T>, sep: seq<T>) {
    exists i: nat :: OccursAt(s, sep, i)
  }

  /** sep occurs at i and nowhere before. */
  ghost predicate First<T>(s: seq<T>, sep: seq<T>, i: nat) {
    OccursAt(s, sep, i) && forall j: nat :: j < i ==> !OccursAt(s, sep, j)
  }

  function IndexFrom<T(==)>(s: seq<T>, sep: seq<T>, k: nat): (i: int)
    requires k <= |s|
    ensures i == -1 || k <= i <= |s| - |sep|
    decreases |s| - k
  {
    if k + |sep| > |s| then -1
    else if s[k..k + |sep|] == sep then k
    else if k == |s| then -1
    else IndexFrom(s, sep, k + 1)
  }

  lemma {:induction false} IndexFromFinds<T>(s: seq<T>, sep: seq<T>, k: nat)
    requires k <= |s|
    ensures var i := IndexFrom(s, sep, k);
            if i == -1 then forall j: nat :: k <= j ==> !OccursAt(s, sep, j)
            else OccursAt(s, sep, i) && forall j: nat :: k <= j < i ==> !OccursAt(s, sep, j)
    decreases |s| - k
  {
    if k < |s| && k + |sep| <= |s| && s[k..k + |sep|] != sep {
      IndexFromFinds(s, sep, k + 1);
    }
  }

  /** The first occurrence of sep, or -1. */
  function IndexOf<T(==)>(s: seq<T>, sep: seq<T>): (i: int)
    ensures i == -1 || 0 <= i <= |s| - |sep|
    ensures if i == -1 then !Contains(s, sep) else First(s, sep, i)
  {
    IndexFromFinds(s, sep, 0);
    IndexFrom(s, sep, 0)
  }

  lemma FirstInPrefix<T>(a: seq<T>, b: seq<T>, sep: seq<T>, i: nat)
    requires i + |sep| <= |a|
    ensures First(a + b, sep, i) <==> First(a, sep, i)
  {
    forall j: nat | j <= i ensures OccursAt(a + b, sep, j) <==> OccursAt(a, sep, j) {
      assert (a + b)[j..j + |sep|] == a[j..j + |sep|];
    }
  }

  /** The pieces that a separator has closed, and the text still held. */
  datatype Pieces<T> = Pieces(frames: seq<seq<T>>, held: seq<T>)

  function Then<T>(p: Pieces<T>, q: Pieces<T>): Pieces<T> {
    Pieces(p.frames + q.frames, q.held)
  }

  lemma ThenIsAssociative<T>(p: Pieces<T>, q: Pieces<T>, r: Pieces<T>)
    ensures Then(Then(p, q), r) == Then(p, Then(q, r))
  {
    assert (p.frames + q.frames) + r.frames == p.frames + (q.frames + r.frames);
  }

  /** The text that a list of closed pieces was cut from. */
  function Joined<T>(frames: seq<seq<T>>, sep: seq<T>): seq<T> {
    if frames == [] then [] else frames[0] + sep + Joined(frames[1..], sep)
  }

  lemma {:induction false} JoinedAppend<T>(a: seq<seq<T>>, b: seq<seq<T>>, sep: seq<T>)
    ensures Joined(a + b, sep) == Joined(a, sep) + Joined(b, sep)
    decreases |a|
  {
    if a == [] {
      assert a + b == b;
    } else {
      JoinedAppend(a[1..], b, sep);
      assert (a + b)[1..] == a[1..] + b;
    }
  }

  /** A piece is closed by the first separator after it opens. */
  ghost predicate Closed<T>(frame: seq<T>, sep: seq<T>) {
    First(frame + sep, sep, |frame|)
  }

  ghost predicate AllClosed<T>(frames: seq<seq<T>>, sep: seq<T>) {
    forall k :: 0 <= k < |frames| ==> Closed(frames[k], sep)
  }

  lemma AllClosedAppend<T>(a: seq<seq<T>>, b: seq<seq<T>>, sep: seq<T>)
    requires AllClosed(a, sep) && AllClosed(b, sep)
    ensures AllClosed(a + b, sep)
  {
    forall k | 0 <= k < |a + b| ensures Closed((a + b)[k], sep) {
      assert (a + b)[k] == if k < |a| then a[k] else b[k - |a|];
    }
  }

  /** What it means to be cut at every separator: the pieces rebuild the text, each is closed by the first
      separator after it opens, and none is left in what is held. */
  ghost predicate IsSplit<T>(s: seq<T>, sep: seq<T>, p: Pieces<T>) {
    && s == Joined(p.frames, sep) + p.held
    && AllClosed(p.frames, sep)
    && !Contains(p.held, sep)
  }

  lemma HeadIsFirst<T>(f: seq<T>, tail: seq<T>, sep: seq<T>)
    requires Closed(f, sep)
    ensures First((f + sep) + tail, sep, |f|)
  {
    FirstInPrefix(f + sep, tail, sep, |f|);
  }

  /** There is only one way to be cut. */
  lemma {:induction false} SplitIsUnique<T>(s: seq<T>, sep: seq<T>, p: Pieces<T>, q: Pieces<T>)
    requires sep != [] && IsSplit(s, sep, p) && IsSplit(s, sep, q)
    ensures p == q
    decreases |p.frames|
  {
    if p.frames == [] || q.frames == [] {
      assert p.frames == [] ==> s == p.held;
      assert q.frames == [] ==> s == q.held;
      if p.frames != [] { HeadOccurs(s, sep, p); assert Contains(s, sep); }
      if q.frames != [] { HeadOccurs(s, sep, q); assert Contains(s, sep); }
    } else {
      HeadOccurs(s, sep, p);
      HeadOccurs(s, sep, q);
      var n := |p.frames[0]|;
      assert n == |q.frames[0]|;
      SplitIsUnique(s[n + |sep|..], sep, Pieces(p.frames[1..], p.held), Pieces(q.frames[1..], q.held));
      assert p.frames == [s[..n]] + p.frames[1..] && q.frames == [s[..n]] + q.frames[1..];
    }
  }

  lemma HeadOccurs<T>(s: seq<T>, sep: seq<T>, p: Pieces<T>)
    requires IsSplit(s, sep, p) && p.frames != []
    ensures var n := |p.frames[0]|;
            && First(s, sep, n) && s[..n] == p.frames[0]
            && IsSplit(s[n + |sep|..], sep, Pieces(p.frames[1..], p.held))
  {
    var f := p.frames[0];
    var tail := Joined(p.frames[1..], sep) + p.held;
    assert s == (f + sep) + tail;
    HeadIsFirst(f, tail, sep);
    assert s[|f| + |sep|..] == tail;
  }

  lemma {:induction false} SplitExists<T>(s: seq<T>, sep: seq<T>)
    requires sep != []
    ensures exists p :: IsSplit(s, sep, p)
    decreases |s|
  {
    if !Contains(s, sep) {
      assert IsSplit(s, sep, Pieces([], s));
    } else {
      var i := IndexOf(s, sep);
      var f, tail := s[..i], s[i + |sep|..];
      SplitExists(tail, sep);
      var q :| IsSplit(tail, sep, q);
      assert s == (f + sep) + tail;
      FirstInPrefix(f + sep, tail, sep, i);
      IsSplitStep(f, tail, sep, q);
    }
  }

  lemma IsSplitStep<T>(f: seq<T>, tail: seq<T>, sep: seq<T>, q: Pieces<T>)
    requires Closed(f, sep) && IsSplit(tail, sep, q)
    ensures IsSplit((f + sep) + tail, sep, Then(Pieces([f], []), q))
  {
    assert Joined([f], sep) == f + sep + Joined([], sep) == f + sep;
    IsSplitJoined([f], tail, sep, q);
  }

  ghost function Split<T>(s: seq<T>, sep: seq<T>): (p: Pieces<T>)
    requires sep != []
    ensures IsSplit(s, sep, p)
  {
    SplitExists(s, sep);
    var p :| IsSplit(s, sep, p);
    p
  }

  /** A closed piece followed by its separator is cut off first. */
  lemma SplitStep<T>(s: seq<T>, f: seq<T>, tail: seq<T>, sep: seq<T>)
    requires sep != [] && Closed(f, sep) && s == (f + sep) + tail
    ensures Split(s, sep) == Then(Pieces([f], []), Split(tail, sep))
  {
    IsSplitStep(f, tail, sep, Split(tail, sep));
    SplitIsUnique(s, sep, Split(s, sep), Then(Pieces([f], []), Split(tail, sep)));
  }

  /** Closed pieces followed by more text. */
  lemma SplitJoined<T>(frames: seq<seq<T>>, tail: seq<T>, sep: seq<T>)
    requires sep != [] && AllClosed(frames, sep)
    ensures Split(Joined(frames, sep) + tail, sep) == Then(Pieces(frames, []), Split(tail, sep))
  {
    var s := Joined(frames, sep) + tail;
    IsSplitJoined(frames, tail, sep, Split(tail, sep));
    SplitIsUnique(s, sep, Split(s, sep), Then(Pieces(frames, []), Split(tail, sep)));
  }

  lemma IsSplitJoined<T>(frames: seq<seq<T>>, tail: seq<T>, sep: seq<T>, q: Pieces<T>)
    requires AllClosed(frames, sep) && IsSplit(tail, sep, q)
    ensures IsSplit(Joined(frames, sep) + tail, sep, Then(Pieces(frames, []), q))
  {
    JoinedAppend(frames, q.frames, sep);
    AllClosedAppend(frames, q.frames, sep);
    Associative(Joined(frames, sep), Joined(q.frames, sep), q.held);
  }

  lemma Associative<T>(a: seq<T>, b: seq<T>, c: seq<T>)
    ensures (a + b) + c == a + (b + c)
  {
  }

  /** Cutting a prefix first and going on from what it held gives the same pieces. */
  lemma SplitAppend<T>(a: seq<T>, b: seq<T>, sep: seq<T>)
    requires sep != []
    ensures Split(a + b, sep) == Then(Split(a, sep), Split(Split(a, sep).held + b, sep))
  {
    var p := Split(a, sep);
    assert a + b == Joined(p.frames, sep) + (p.held + b);
    SplitJoined(p.frames, p.held + b, sep);
  }

  lemma SplitOpen<T>(s: seq<T>, sep: seq<T>)
    requires sep != [] && !Contains(s, sep)
    ensures Split(s, sep) == Pieces([], s)
  {
    assert IsSplit(s, sep, Pieces([], s));
    SplitIsUnique(s, sep, Split(s, sep), Pieces([], s));
  }

  function Concat<T>(chunks: seq<seq<T>>): seq<T> {
    if chunks == [] then [] else chunks[0] + Concat(chunks[1..])
  }

  /** The pieces after feeding chunk by chunk, keeping the held text between chunks. */
  ghost function Feed<T>(held: seq<T>, chunks: seq<seq<T>>, sep: seq<T>): Pieces<T>
    requires sep != []
    decreases |chunks|
  {
    if chunks == [] then Pieces([], held)
    else
      var p := Split(held + chunks[0], sep);
      Then(p, Feed(p.held, chunks[1..], sep))
  }

  /** Chunk boundaries do not matter: feeding is splitting the concatenation. */
  lemma {:induction false} FeedIsSplit<T>(held: seq<T>, chunks: seq<seq<T>>, sep: seq<T>)
    requires sep != [] && !Contains(held, sep)
    ensures Feed(held, chunks, sep) == Split(held + Concat(chunks), sep)
    decreases |chunks|
  {
    if chunks == [] {
      assert held + Concat(chunks) == held;
      SplitOpen(held, sep);
    } else {
      var a, b := held + chunks[0], Concat(chunks[1..]);
      FeedIsSplit(Split(a, sep).held, chunks[1..], sep);
      SplitAppend(a, b, sep);
      assert held + Concat(chunks) == a + b;
    }
  }

  /** One turn of a reader's loop: the closed piece moves from the buffer to the output. */
  lemma NextPiece<T>(whole: seq<T>, out: seq<seq<T>>, buffer: seq<T>, i: nat, sep: seq<T>)
    requires sep != [] && First(buffer, sep, i)
    requires Split(whole, sep) == Then(Pieces(out, []), Split(buffer, sep))
    ensures Split(whole, sep) == Then(Pieces(out + [buffer[..i]], []), Split(buffer[i + |sep|..], sep))
  {
    var f, tail := buffer[..i], buffer[i + |sep|..];
    assert buffer == (f + sep) + tail;
    FirstInPrefix(f + sep, tail, sep, i);
    SplitStep(buffer, f, tail, sep);
    ThenIsAssociative(Pieces(out, []), Pieces([f], []), Split(tail, sep));
  }

  lemma NoPieceYet<T>(whole: seq<T>, sep: seq<T>)
    requires sep != []
    ensures Split(whole, sep) == Then(Pieces([], []), Split(whole, sep))
  {
    assert [] + Split(whole, sep).frames == Split(whole, sep).frames;
  }

  lemma LastPiece<T>(whole: seq<T>, out: seq<seq<T>>, buffer: seq<T>, sep: seq<T>)
    requires sep != [] && !Contains(buffer, sep)
    requires Split(whole, sep) == Then(Pieces(out, []), Split(buffer, sep))
    ensures Split(whole, sep) == Pieces(out, buffer)
  {
    SplitOpen(buffer, sep);
    assert out + [] == out;
  }
}
