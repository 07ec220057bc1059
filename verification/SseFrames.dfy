/** The frames that the preview client's reader dispatches, apart from the text it still holds: exactly when they
    do not depend on the chunk boundaries. */
module SseFrames {
  import opened Framing
  import opened Sse

  // ---- Counting blank lines ----

  /** The number of frames in a text. */
  function Count(s: string): nat {
    if |s| < 2 then 0
    else if s[0] == '\n' && s[1] == '\n' then 1 + Count(s[2..])
    else Count(s[1..])
  }

  lemma ShiftSplit(c: char, t: string)
    requires !OccursAt([c] + t, BLANK_LINE, 0)
    ensures |Split([c] + t, BLANK_LINE).frames| == |Split(t, BLANK_LINE).frames|
  {
    var q := Split(t, BLANK_LINE);
    if q.frames == [] {
      assert t == q.held;
      NoneAfterShift(c, t);
      SplitOpen([c] + t, BLANK_LINE);
    } else {
      var f, tail := q.frames[0], Joined(q.frames[1..], BLANK_LINE) + q.held;
      assert t == (f + BLANK_LINE) + tail;
      assert [c] + t == (([c] + f) + BLANK_LINE) + tail;
      ShiftClosed(c, f, tail);
      SplitStep([c] + t, [c] + f, tail, BLANK_LINE);
      SplitStep(t, f, tail, BLANK_LINE);
    }
  }

  lemma NoneAfterShift(c: char, t: string)
    requires !OccursAt([c] + t, BLANK_LINE, 0) && !Contains(t, BLANK_LINE)
    ensures !Contains([c] + t, BLANK_LINE)
  {
    forall i: nat | i > 0 ensures OccursAt([c] + t, BLANK_LINE, i) ==> OccursAt(t, BLANK_LINE, i - 1) {
      if i + 2 <= |t| + 1 { assert ([c] + t)[i..i + 2] == t[i - 1..i + 1]; }
    }
  }

  lemma ShiftClosed(c: char, f: string, tail: string)
    requires Closed(f, BLANK_LINE) && !OccursAt(([c] + f) + BLANK_LINE + tail, BLANK_LINE, 0)
    ensures Closed([c] + f, BLANK_LINE)
  {
    var s, g := f + BLANK_LINE, ([c] + f) + BLANK_LINE;
    assert g == [c] + s;
    FirstInPrefix(g, tail, BLANK_LINE, 0);
    forall j: nat | j < |f| + 1 ensures !OccursAt(g, BLANK_LINE, j) {
      if j == 0 {
        assert (g + tail)[0..2] == g[0..2];
      } else {
        assert !OccursAt(s, BLANK_LINE, j - 1);
        assert g[j..j + 2] == s[j - 1..j + 1];
      }
    }
  }

  lemma {:induction false} CountIs(s: string)
    ensures Count(s) == |Split(s, BLANK_LINE).frames|
    decreases |s|
  {
    if |s| < 2 {
      SplitOpen(s, BLANK_LINE);
    } else if s[0] == '\n' && s[1] == '\n' {
      assert s == ("" + BLANK_LINE) + s[2..];
      assert Closed("", BLANK_LINE);
      SplitStep(s, "", s[2..], BLANK_LINE);
      CountIs(s[2..]);
    } else {
      assert s == [s[0]] + s[1..];
      assert s[0..2] == [s[0], s[1]];
      ShiftSplit(s[0], s[1..]);
      CountIs(s[1..]);
    }
  }

  lemma {:induction false} CountTail(s: string)
    requires s != ""
    ensures Count(s[1..]) <= Count(s) <= 1 + Count(s[1..])
    decreases |s|
  {
    if |s| < 2 {
    } else if s[0] == '\n' && s[1] == '\n' {
      CountTail(s[1..]);
      assert s[1..][1..] == s[2..];
    }
  }

  /** Text before a blank line takes no frame from what follows it. */
  lemma {:induction false} CountAfter(u: string, z: string)
    ensures Count(u + (BLANK_LINE + z)) >= 1 + Count(z)
    decreases |u|
  {
    var s := u + (BLANK_LINE + z);
    if u == "" {
      assert s[2..] == z;
    } else {
      assert s[1..] == u[1..] + (BLANK_LINE + z);
      if s[0] == '\n' && s[1] == '\n' {
        if |u| == 1 {
          assert s[2..][1..] == z;
          CountTail(s[2..]);
        } else {
          assert s[2..] == u[2..] + (BLANK_LINE + z);
          CountAfter(u[2..], z);
        }
      } else {
        CountAfter(u[1..], z);
      }
    }
  }

  // ---- Dropping every CR before an LF ----

  /** CRs, if any, then an LF. */
  predicate CrsThenLf(s: string) { s != "" && (s[0] == '\n' || (s[0] == '\r' && CrsThenLf(s[1..]))) }

  /** The text that enough passes of the replacement leave. */
  function Stripped(s: string): (r: string)
    ensures |r| <= |s|
  {
    if s == "" then "" else if s[0] == '\r' && CrsThenLf(s) then Stripped(s[1..]) else [s[0]] + Stripped(s[1..])
  }

  lemma CrsThenLfStep(c: char, s: string)
    ensures CrsThenLf([c] + s) <==> c == '\n' || (c == '\r' && CrsThenLf(s))
    ensures Stripped([c] + s) == if c == '\r' && CrsThenLf(s) then Stripped(s) else [c] + Stripped(s)
  {
    assert ([c] + s)[1..] == s;
  }

  lemma {:induction false} CrsThenLfGoesOn(a: string, b: string)
    ensures CrsThenLf(a) ==> CrsThenLf(a + b)
    decreases |a|
  {
    if a == "" {
    } else {
      assert (a + b)[1..] == a[1..] + b;
      CrsThenLfGoesOn(a[1..], b);
    }
  }

  lemma {:induction false} CrsThenLfStripped(a: string, b: string)
    ensures CrsThenLf(Stripped(a) + b) == CrsThenLf(a + b)
    decreases |a|
  {
    if a == "" {
    } else {
      var c, d := a[0], a[1..];
      CrsThenLfStripped(d, b);
      StripHead(a, b);
      CrsThenLfStep(c, d + b);
      CrsThenLfStep(c, Stripped(d) + b);
      CrsThenLfGoesOn(a, b);
    }
  }

  lemma Uncons(a: string, b: string)
    requires a != ""
    ensures a + b == [a[0]] + (a[1..] + b)
  {
    assert a == [a[0]] + a[1..];
    OneMore(a[0], a[1..], b);
  }

  lemma StripHead(a: string, b: string)
    requires a != ""
    ensures a + b == [a[0]] + (a[1..] + b)
    ensures Stripped(a) + b == if a[0] == '\r' && CrsThenLf(a) then Stripped(a[1..]) + b
                               else [a[0]] + (Stripped(a[1..]) + b)
  {
    Uncons(a, b);
    if !(a[0] == '\r' && CrsThenLf(a)) {
      assert Stripped(a) == [a[0]] + Stripped(a[1..]);
      OneMore(a[0], Stripped(a[1..]), b);
    }
  }

  /** Stripping a part first changes nothing in the end. */
  lemma {:induction false} StripAgain(a: string, b: string)
    ensures Stripped(Stripped(a) + b) == Stripped(a + b)
    decreases |a|
  {
    if a == "" {
    } else {
      var c, d := a[0], a[1..];
      StripAgain(d, b);
      CrsThenLfStripped(d, b);
      StripHead(a, b);
      CrsThenLfStep(c, d + b);
      CrsThenLfStep(c, Stripped(d) + b);
      CrsThenLfGoesOn(a, b);
    }
  }

  lemma {:induction false} CrsThenLfNormalized(a: string, b: string)
    ensures CrsThenLf(Normalized(a) + b) == CrsThenLf(a + b)
    decreases |a|
  {
    if a == "" {
    } else {
      var c := a[0];
      assert a == [c] + a[1..] && a + b == [c] + (a[1..] + b);
      CrsThenLfStep(c, a[1..] + b);
      NormalizedRest(a);
      NormalizedHead(a, b);
      if CrLfAt(a, 0) {
        assert CrsThenLf(a[1..] + b);
      } else {
        CrsThenLfNormalized(a[1..], b);
        CrsThenLfStep(c, Normalized(a[1..]) + b);
      }
    }
  }

  lemma NormalizedHead(a: string, b: string)
    requires a != ""
    ensures Normalized(a) + b == [if CrLfAt(a, 0) then '\n' else a[0]] + (Normalized(Rest(a)) + b)
  {
    NormalizedRest(a);
    OneMore(if CrLfAt(a, 0) then '\n' else a[0], Normalized(Rest(a)), b);
  }

  /** One pass of the replacement changes nothing in the end. */
  lemma {:induction false} StripNormalized(a: string, b: string)
    ensures Stripped(Normalized(a) + b) == Stripped(a + b)
    decreases |a|
  {
    if a == "" {
    } else {
      var rest := Rest(a);
      NormalizedHead(a, b);
      StripNormalized(rest, b);
      CrsThenLfNormalized(rest, b);
      if CrLfAt(a, 0) {
        assert a + b == ['\r'] + (['\n'] + (rest + b));
        CrsThenLfStep('\n', rest + b);
        CrsThenLfStep('\r', ['\n'] + (rest + b));
        CrsThenLfStep('\n', Normalized(rest) + b);
      } else {
        assert a + b == [a[0]] + (rest + b);
        CrsThenLfStep(a[0], rest + b);
        CrsThenLfStep(a[0], Normalized(rest) + b);
      }
    }
  }

  lemma {:induction false} RunEndsInCrLf(s: string)
    requires CrsThenLf(s) && s[0] == '\r'
    ensures HasCrLf(s)
    decreases |s|
  {
    if s[1] == '\n' {
      assert CrLfAt(s, 0);
    } else {
      RunEndsInCrLf(s[1..]);
      PartHasNone([s[0]], s[1..]);
      assert s == [s[0]] + s[1..];
    }
  }

  lemma {:induction false} StripFixed(s: string)
    requires !HasCrLf(s)
    ensures Stripped(s) == s
    decreases |s|
  {
    if s == "" {
    } else {
      assert s == [s[0]] + s[1..];
      PartHasNone([s[0]], s[1..]);
      StripFixed(s[1..]);
      if s[0] == '\r' && CrsThenLf(s) { RunEndsInCrLf(s); }
    }
  }

  lemma CrLfAfterOne(c: char, t: string)
    ensures HasCrLf([c] + t) ==> HasCrLf(t) || (c == '\r' && t != "" && t[0] == '\n')
  {
    if i: nat :| CrLfAt([c] + t, i) {
      if i > 0 { assert CrLfAt(t, i - 1); }
    }
  }

  lemma {:induction false} StripHasNone(s: string)
    ensures !HasCrLf(Stripped(s)) && (Stripped(s) != "" && Stripped(s)[0] == '\n' ==> CrsThenLf(s))
    decreases |s|
  {
    if s == "" {
    } else {
      StripHasNone(s[1..]);
      CrLfAfterOne(s[0], Stripped(s[1..]));
    }
  }

  lemma {:induction false} CrsThenLfEnds(a: string, b: string)
    requires a != "" && a[|a| - 1] == '\n'
    ensures CrsThenLf(a + b) <==> CrsThenLf(a)
    decreases |a|
  {
    if |a| == 1 {
    } else {
      assert (a + b)[1..] == a[1..] + b;
      CrsThenLfEnds(a[1..], b);
    }
  }

  /** An LF ends what is dropped. */
  lemma {:induction false} StripJoin(a: string, b: string)
    requires a == "" || a[|a| - 1] == '\n'
    ensures Stripped(a + b) == Stripped(a) + Stripped(b)
    decreases |a|
  {
    if a == "" {
      assert a + b == b;
    } else {
      var c, d := a[0], a[1..];
      assert a == [c] + d && a + b == [c] + (d + b);
      StripJoin(d, b);
      CrsThenLfStep(c, d);
      CrsThenLfStep(c, d + b);
      if d != "" { CrsThenLfEnds(d, b); }
      OneMore(c, Stripped(d), Stripped(b));
    }
  }

  lemma {:induction false} StripEnds(a: string)
    requires EndsWith(a, '\n')
    ensures EndsWith(Stripped(a), '\n')
    decreases |a|
  {
    if |a| > 1 { StripEnds(a[1..]); }
  }

  // ---- No reading finds more frames than the stripped text has ----

  /** A closed frame's text, stripped, ends in a blank line. */
  lemma StripFrame(f: string)
    ensures var t := Stripped(f + BLANK_LINE);
            |t| >= 2 && t == t[..|t| - 2] + BLANK_LINE
  {
    var g := f + "\n";
    assert f + BLANK_LINE == g + "\n";
    StripJoin(g, "\n");
    StripEnds(g);
    CrsThenLfStep('\n', "");
  }

  lemma {:induction false} CountJoined(frames: seq<string>, y: string)
    ensures Count(Stripped(Joined(frames, BLANK_LINE)) + y) >= |frames| + Count(y)
    decreases |frames|
  {
    if frames == [] {
      assert "" + y == y;
    } else {
      var head, rest := frames[0] + BLANK_LINE, Joined(frames[1..], BLANK_LINE);
      CountJoined(frames[1..], y);
      StripFrame(frames[0]);
      StripJoin(head, rest);
      var t, z := Stripped(head), Stripped(rest) + y;
      var u := t[..|t| - 2];
      CountAfter(u, z);
      assert (t + Stripped(rest)) + y == u + (BLANK_LINE + z);
    }
  }

  lemma CountCut(x: string, rest: string)
    ensures var p := Split(x, BLANK_LINE);
            Count(Stripped(x + rest)) >= |p.frames| + Count(Stripped(p.held + rest))
  {
    var p := Split(x, BLANK_LINE);
    var j := Joined(p.frames, BLANK_LINE);
    assert x + rest == j + (p.held + rest);
    JoinedEnd(p.frames);
    StripJoin(j, p.held + rest);
    CountJoined(p.frames, Stripped(p.held + rest));
  }

  lemma BoundStep(text: string, rest: string, r: Pieces<char>)
    requires |r.frames| <= Count(Stripped(Split(Normalized(text), BLANK_LINE).held + rest))
    ensures |Then(Split(Normalized(text), BLANK_LINE), r).frames| <= Count(Stripped(text + rest))
  {
    StripNormalized(text, rest);
    CountCut(Normalized(text), rest);
  }

  lemma ReadStep(held: string, chunks: seq<string>)
    requires chunks != []
    ensures var p := Split(Normalized(held + chunks[0]), BLANK_LINE);
            Read(held, chunks) == Then(p, Read(p.held, chunks[1..]))
  {
  }

  lemma ConcatStep(held: string, chunks: seq<string>)
    requires chunks != []
    ensures held + Concat(chunks) == (held + chunks[0]) + Concat(chunks[1..])
  {
  }

  lemma {:induction false} FramesBound(held: string, chunks: seq<string>)
    ensures |Read(held, chunks).frames| <= Count(Stripped(held + Concat(chunks)))
    decreases |chunks|
  {
    if chunks == [] {
    } else {
      var next := Split(Normalized(held + chunks[0]), BLANK_LINE).held;
      FramesBound(next, chunks[1..]);
      ReadStep(held, chunks);
      ConcatStep(held, chunks);
      BoundStep(held + chunks[0], Concat(chunks[1..]), Read(next, chunks[1..]));
    }
  }

  // ---- Every reading finds the frames of the text before the first CR CR LF ----

  ghost predicate FirstCrCrLf(text: string, i: nat) {
    CrCrLfAt(text, i) && forall j: nat :: j < i ==> !CrCrLfAt(text, j)
  }

  lemma NoneBefore(text: string, i: nat)
    requires FirstCrCrLf(text, i)
    ensures !HasCrCrLf(text[..i])
  {
    forall j: nat ensures CrCrLfAt(text[..i], j) ==> CrCrLfAt(text, j) && j < i {
    }
  }

  /** One chunk that reaches past the text before the CR CR LF. */
  lemma ChunkPast(u: string, chunk: string, p: string, d: string)
    requires !HasCrCrLf(p) && |u| <= |p| && u + chunk == p + d && d != "" && d[0] == '\r'
    ensures var q := Split(Normalized(u), BLANK_LINE);
            Split(Normalized(p), BLANK_LINE).frames <= Then(q, Split(Normalized(q.held + chunk), BLANK_LINE)).frames
  {
    assert u == p[..|u|] by { assert (u + chunk)[..|u|] == (p + d)[..|u|]; }
    assert p == u + p[|u|..];
    PartHasNone(u, p[|u|..]);
    ReadChunk(u, chunk);
    NormalizedAppend(p, d);
    SplitAppend(Normalized(p), Normalized(d), BLANK_LINE);
  }

  lemma {:induction false} FramesBefore(u: string, chunks: seq<string>, p: string, d: string)
    requires !HasCrCrLf(p) && |u| <= |p| && u + Concat(chunks) == p + d && d != "" && d[0] == '\r'
    ensures var q := Split(Normalized(u), BLANK_LINE);
            Split(Normalized(p), BLANK_LINE).frames <= Then(q, Read(q.held, chunks)).frames
    decreases |chunks|
  {
    assert |u + Concat(chunks)| == |p + d|;
    if chunks == [] {
    } else {
      var q, v := Split(Normalized(u), BLANK_LINE), u + chunks[0];
      assert v + Concat(chunks[1..]) == p + d;
      var r := Split(Normalized(q.held + chunks[0]), BLANK_LINE);
      ThenIsAssociative(q, r, Read(r.held, chunks[1..]));
      if |v| <= |p| {
        assert u == p[..|u|] by { assert (u + Concat(chunks))[..|u|] == (p + d)[..|u|]; }
        assert p == u + p[|u|..];
        PartHasNone(u, p[|u|..]);
        ReadChunk(u, chunks[0]);
        FramesBefore(v, chunks[1..], p, d);
      } else {
        var e := d[..|v| - |p|];
        assert v == p + e by { assert v == (p + d)[..|v|]; }
        ChunkPast(u, chunks[0], p, e);
      }
    }
  }

  // ---- A reading that finds all frames of the stripped text ----

  function Empties(n: nat): seq<string> { if n == 0 then [] else [""] + Empties(n - 1) }

  /** One chunk for each character, with n empty chunks after each. */
  function Drip(s: string, n: nat): seq<string> {
    if s == "" then [] else Drip(s[..|s| - 1], n) + ([[s[|s| - 1]]] + Empties(n))
  }

  lemma {:induction false} ConcatAppend(a: seq<string>, b: seq<string>)
    ensures Concat(a + b) == Concat(a) + Concat(b)
    decreases |a|
  {
    if a == [] {
      assert a + b == b;
    } else {
      assert (a + b)[1..] == a[1..] + b;
      ConcatAppend(a[1..], b);
    }
  }

  lemma {:induction false} DripIsText(s: string, n: nat)
    ensures Concat(Drip(s, n)) == s
    decreases |s|
  {
    if s == "" {
    } else {
      DripIsText(s[..|s| - 1], n);
      EmptiesAreEmpty(n);
      ConcatAppend(Drip(s[..|s| - 1], n), [[s[|s| - 1]]] + Empties(n));
      assert ([[s[|s| - 1]]] + Empties(n))[1..] == Empties(n);
    }
  }

  lemma {:induction false} EmptiesAreEmpty(n: nat)
    ensures Concat(Empties(n)) == ""
    decreases n
  {
    if n == 0 {
    } else {
      EmptiesAreEmpty(n - 1);
      assert Empties(n)[1..] == Empties(n - 1);
    }
  }

  lemma {:induction false} ReadAppend(held: string, a: seq<string>, b: seq<string>)
    ensures Read(held, a + b) == Then(Read(held, a), Read(Read(held, a).held, b))
    decreases |a|
  {
    if a == [] {
      assert a + b == b;
      var r := Read(held, b);
      assert [] + r.frames == r.frames;
    } else {
      var p := Split(Normalized(held + a[0]), BLANK_LINE);
      assert (a + b)[1..] == a[1..] + b;
      ReadAppend(p.held, a[1..], b);
      var r := Read(p.held, a[1..]);
      ThenIsAssociative(p, r, Read(r.held, b));
    }
  }

  /** Empty chunks find nothing in a text without CR LF and blank line. */
  lemma {:induction false} Idle(held: string, n: nat)
    requires !HasCrLf(held) && !Contains(held, BLANK_LINE)
    ensures Read(held, Empties(n)) == Pieces([], held)
    decreases n
  {
    if n == 0 {
    } else {
      assert Empties(n)[0] == "" && Empties(n)[1..] == Empties(n - 1) && held + "" == held;
      NormalizedFixed(held);
      SplitOpen(held, BLANK_LINE);
      Idle(held, n - 1);
    }
  }

  /** Nothing but the last character can complete a CR LF or a blank line. */
  ghost predicate LastIsNew(h: string) {
    h != "" && !HasCrLf(h[..|h| - 1]) && !Contains(h[..|h| - 1], BLANK_LINE)
  }

  lemma ReadEmpty(h: string, n: nat)
    requires n > 0
    ensures var p := Split(Normalized(h), BLANK_LINE); Read(h, Empties(n)) == Then(p, Read(p.held, Empties(n - 1)))
  {
    assert Empties(n)[0] == "" && Empties(n)[1..] == Empties(n - 1) && h + "" == h;
  }

  lemma StripOfNormalized(h: string)
    ensures Stripped(Normalized(h)) == Stripped(h)
  {
    StripNormalized(h, "");
    assert Normalized(h) + "" == Normalized(h) && h + "" == h;
  }

  /** The pass that takes the last CR. */
  lemma LastPass(h: string, n: nat)
    requires n > 0 && !HasCrLf(Normalized(h))
    ensures Read(h, Empties(n)) == Split(Stripped(h), BLANK_LINE)
  {
    var p := Split(Normalized(h), BLANK_LINE);
    ReadEmpty(h, n);
    StripOfNormalized(h);
    StripFixed(Normalized(h));
    HeldHasNone(Normalized(h));
    Idle(p.held, n - 1);
    assert p.frames + [] == p.frames;
  }

  lemma OnePassMore(h: string, n: nat)
    requires n > 0 && LastIsNew(h) && HasCrLf(Normalized(h))
    ensures var x := Normalized(h);
            && LastIsNew(x) && |x| < |h| && Stripped(x) == Stripped(h)
            && Read(h, Empties(n)) == Read(x, Empties(n - 1))
  {
    var x := Normalized(h);
    LastCrLf(h);
    ReadEmpty(h, n);
    StripOfNormalized(h);
    SplitOpen(x, BLANK_LINE);
    NothingFirst(Read(x, Empties(n - 1)), x);
  }

  /** The held text is stripped by as many empty chunks as it has characters. */
  lemma {:induction false} Passes(h: string, n: nat)
    requires LastIsNew(h) && |h| <= n
    ensures Read(h, Empties(n)) == Split(Stripped(h), BLANK_LINE)
    decreases n
  {
    if HasCrLf(Normalized(h)) {
      OnePassMore(h, n);
      Passes(Normalized(h), n - 1);
    } else {
      LastPass(h, n);
    }
  }

  lemma NothingFirst(r: Pieces<char>, held: string)
    ensures Then(Pieces([], held), r) == r
  {
    assert [] + r.frames == r.frames;
  }

  lemma HeldHasNone(x: string)
    requires !HasCrLf(x)
    ensures !HasCrLf(Split(x, BLANK_LINE).held) && !HasCrLf(Joined(Split(x, BLANK_LINE).frames, BLANK_LINE))
  {
    var p := Split(x, BLANK_LINE);
    PartHasNone(Joined(p.frames, BLANK_LINE), p.held);
  }

  lemma CrLfInside(h: string, i: nat)
    requires CrLfAt(h, i) && i + 2 < |h|
    ensures HasCrLf(h[..|h| - 1])
  {
    assert CrLfAt(h[..|h| - 1], i);
  }

  lemma PartContains(a: string, b: string)
    ensures Contains(a, BLANK_LINE) ==> Contains(a + b, BLANK_LINE)
  {
    if i: nat :| OccursAt(a, BLANK_LINE, i) {
      assert (a + b)[i..i + 2] == a[i..i + 2];
      assert OccursAt(a + b, BLANK_LINE, i);
    }
  }

  lemma EndsInCrLf(h: string) returns (g: string)
    requires LastIsNew(h) && HasCrLf(h)
    ensures h == g + "\r\n" && h[..|h| - 1] == g + "\r" && !HasCrLf(g) && !Contains(g, BLANK_LINE)
  {
    var i: nat :| CrLfAt(h, i);
    if i + 2 < |h| { CrLfInside(h, i); }
    g := h[..i];
    PartHasNone(g, "\r");
    PartContains(g, "\r");
    assert h[..|h| - 1] == g + "\r";
  }

  lemma BlankLineAtEnd(g: string)
    ensures Contains(g + "\n", BLANK_LINE) ==> Contains(g, BLANK_LINE) || EndsWith(g, '\n')
  {
    if b: nat :| OccursAt(g + "\n", BLANK_LINE, b) {
      assert (g + "\n")[b..b + 2][0] == (g + "\n")[b];
      if b + 2 <= |g| {
        assert g[b..b + 2] == (g + "\n")[b..b + 2];
        assert OccursAt(g, BLANK_LINE, b);
      }
    }
  }

  lemma CrLfBeforeLast(g: string)
    ensures HasCrLf(g + "\n") ==> HasCrLf(g) || EndsWith(g, '\r')
  {
    if k: nat :| CrLfAt(g + "\n", k) {
      if k + 1 < |g| { assert CrLfAt(g, k); }
    }
  }

  /** A pass that leaves a CR LF took one CR from the end, and closed no frame. */
  lemma LastCrLf(h: string)
    requires LastIsNew(h) && HasCrLf(Normalized(h))
    ensures var x := Normalized(h); LastIsNew(x) && |x| < |h| && !Contains(x, BLANK_LINE)
  {
    if !HasCrLf(h) { NormalizedFixed(h); }
    var g := EndsInCrLf(h);
    CrLfBecomesLf(g, "");
    assert h + "" == h && (g + "\n") + "" == g + "\n";
    assert Normalized(h) == g + "\n" && (g + "\n")[..|g|] == g;
    CrLfBeforeLast(g);
    BlankLineAtEnd(g);
  }

  lemma DripAsEmpties(held: string, c: char, n: nat)
    ensures Read(held, [[c]] + Empties(n)) == Read(held + [c], Empties(n + 1))
  {
    ReadEmpty(held + [c], n + 1);
    ReadStep(held, [[c]] + Empties(n));
    assert ([[c]] + Empties(n))[1..] == Empties(n);
  }

  lemma DripPasses(held: string, c: char, n: nat)
    requires !HasCrLf(held) && !Contains(held, BLANK_LINE) && |held| < n
    ensures Read(held, [[c]] + Empties(n)) == Split(Stripped(held + [c]), BLANK_LINE)
  {
    assert (held + [c])[..|held|] == held;
    DripAsEmpties(held, c, n);
    Passes(held + [c], n + 1);
  }

  /** One character and its empty chunks. */
  lemma DripStep(u: string, c: char, n: nat)
    requires |u| < n
    ensures var st := Split(Stripped(u), BLANK_LINE);
            Then(st, Read(st.held, [[c]] + Empties(n))) == Split(Stripped(u + [c]), BLANK_LINE)
  {
    var st := Split(Stripped(u), BLANK_LINE);
    StripHasNone(u);
    HeldHasNone(Stripped(u));
    DripPasses(st.held, c, n);
    StripSnoc(u, c);
    SplitJoined(st.frames, Stripped(st.held + [c]), BLANK_LINE);
  }

  lemma StripSnoc(u: string, c: char)
    ensures var st := Split(Stripped(u), BLANK_LINE);
            Stripped(u + [c]) == Joined(st.frames, BLANK_LINE) + Stripped(st.held + [c])
  {
    var st := Split(Stripped(u), BLANK_LINE);
    var j := Joined(st.frames, BLANK_LINE);
    StripHasNone(u);
    HeldHasNone(Stripped(u));
    StripAgain(u, [c]);
    assert Stripped(u) + [c] == j + (st.held + [c]);
    JoinedEnd(st.frames);
    StripJoin(j, st.held + [c]);
    StripFixed(j);
  }

  lemma {:induction false} DripFindsAll(s: string, n: nat)
    requires |s| <= n
    ensures Read("", Drip(s, n)) == Split(Stripped(s), BLANK_LINE)
    decreases |s|
  {
    if s == "" {
      SplitOpen("", BLANK_LINE);
    } else {
      var u, c := s[..|s| - 1], s[|s| - 1];
      assert s == u + [c];
      DripFindsAll(u, n);
      ReadAppend("", Drip(u, n), [[c]] + Empties(n));
      DripStep(u, c, n);
    }
  }

  // ---- Exactly when chunk boundaries do not matter to the frames ----

  /** No frame closes at or after the first CR CR LF, however often the held text is normalised. */
  ghost predicate ClosedBefore(text: string) {
    forall i: nat :: FirstCrCrLf(text, i) ==> Count(Stripped(text)) == Count(Normalized(text[..i]))
  }

  ghost predicate SameFrames(text: string) {
    forall chunks: seq<string> :: Concat(chunks) == text ==> Read("", chunks).frames == Read("", [text]).frames
  }

  lemma FramesBetween(text: string, i: nat, chunks: seq<string>)
    requires FirstCrCrLf(text, i) && Concat(chunks) == text
    ensures Split(Normalized(text[..i]), BLANK_LINE).frames <= Read("", chunks).frames
    ensures |Read("", chunks).frames| <= Count(Stripped(text))
  {
    NoneBefore(text, i);
    assert "" + text == text == text[..i] + text[i..];
    FramesBefore("", chunks, text[..i], text[i..]);
    SplitOpen("", BLANK_LINE);
    var r := Read("", chunks);
    assert [] + r.frames == r.frames;
    FramesBound("", chunks);
  }

  lemma NormalizedAround(text: string, i: nat)
    requires CrCrLfAt(text, i)
    ensures Normalized(text) == Normalized(text[..i]) + "\r\n" + Normalized(text[i + 3..])
  {
    var p, b := text[..i], text[i + 3..];
    assert text == (p + "\r") + "\r\n" + b;
    CrLfBecomesLf(p + "\r", b);
    NormalizedAppend(p, "\r");
    assert (Normalized(p) + "\r") + "\n" == Normalized(p) + "\r\n";
  }

  /** If a frame does close later, reading the text whole and reading it drop by drop differ. */
  lemma LaterFrameDiffers(text: string, i: nat)
    requires FirstCrCrLf(text, i) && Count(Stripped(text)) > Count(Normalized(text[..i]))
    ensures Split(Normalized(text), BLANK_LINE).frames != Split(Stripped(text), BLANK_LINE).frames
  {
    var f, held := Split(Normalized(text), BLANK_LINE).frames, Split(Normalized(text), BLANK_LINE).held;
    StripHasNone(text);
    HeldHasNone(Stripped(text));
    NormalizedAround(text, i);
    CountIs(Stripped(text));
    CountIs(Normalized(text[..i]));
    if |f| > Count(Normalized(text[..i])) {
      JoinedReaches(f, held, Normalized(text[..i]), Normalized(text[i + 3..]));
    }
  }

  lemma JoinedReaches(f: seq<string>, held: string, p: string, b: string)
    requires AllClosed(f, BLANK_LINE) && Joined(f, BLANK_LINE) + held == p + "\r\n" + b
    requires |f| > |Split(p, BLANK_LINE).frames|
    ensures HasCrLf(Joined(f, BLANK_LINE))
  {
    var j := Joined(f, BLANK_LINE);
    if |j| >= |p| + 2 {
      SharesCrLf(j, held, p, b);
    } else {
      JoinedEnd(f);
      InsideBefore(j, held, p, b);
      SplitJoined(f, p[|j|..], BLANK_LINE);
    }
  }

  lemma SharesCrLf(j: string, held: string, p: string, b: string)
    requires j + held == p + "\r\n" + b && |j| >= |p| + 2
    ensures HasCrLf(j)
  {
    assert j[|p|] == (p + "\r\n" + b)[|p|] && j[|p| + 1] == (p + "\r\n" + b)[|p| + 1];
    assert CrLfAt(j, |p|);
  }

  lemma InsideBefore(j: string, held: string, p: string, b: string)
    requires j + held == p + "\r\n" + b && |j| <= |p| + 1 && (j == "" || EndsWith(j, '\n'))
    ensures |j| <= |p| && p == j + p[|j|..]
  {
    var s := p + "\r\n" + b;
    assert j == s[..|j|];
    assert s[|p|] == '\r' && forall k :: 0 <= k < |j| ==> j[k] == s[k];
    assert p == s[..|p|];
  }

  lemma FramesDoNotMatterIff(text: string)
    ensures SameFrames(text) <==> ClosedBefore(text)
  {
    if HasCrCrLf(text) {
      var i := FirstOf(text);
      assert forall k: nat :: FirstCrCrLf(text, k) ==> k == i;
      if Count(Stripped(text)) > Count(Normalized(text[..i])) {
        LaterFrameSeen(text, i);
      } else {
        NoLaterFrame(text, i);
      }
    } else {
      forall chunks: seq<string> | Concat(chunks) == text ensures Read("", chunks).frames == Read("", [text]).frames {
        ReadDependsOnText(chunks);
        OneChunk("", text);
        assert "" + text == text;
      }
    }
  }

  lemma CountClosed(g: string)
    ensures Count(Stripped(g + BLANK_LINE)) >= 1
  {
    StripFrame(g);
    var t := Stripped(g + BLANK_LINE);
    CountAfter(t[..|t| - 2], "");
    assert t[..|t| - 2] + (BLANK_LINE + "") == t;
  }

  lemma LastFrameCloses(s: string, i: nat)
    requires i <= |s|
    ensures var text := s + BLANK_LINE; Count(Stripped(text)) > Count(Normalized(text[..i]))
  {
    var text := s + BLANK_LINE;
    var p, rest := text[..i], s[i..] + BLANK_LINE;
    var held := Split(Normalized(p), BLANK_LINE).held;
    assert text == p + rest;
    StripNormalized(p, rest);
    CountCut(Normalized(p), rest);
    CountClosed(held + s[i..]);
    assert held + rest == (held + s[i..]) + BLANK_LINE;
    CountIs(Normalized(p));
  }

  /** For a text that ends in a blank line, exactly when it has no CR CR LF. */
  lemma ClosedTextIff(s: string)
    ensures SameFrames(s + BLANK_LINE) <==> !HasCrCrLf(s + BLANK_LINE)
  {
    FramesDoNotMatterIff(s + BLANK_LINE);
    if HasCrCrLf(s + BLANK_LINE) {
      var i := FirstOf(s + BLANK_LINE);
      LastFrameCloses(s, i);
    }
  }

  lemma LaterFrameSeen(text: string, i: nat)
    requires FirstCrCrLf(text, i) && Count(Stripped(text)) > Count(Normalized(text[..i]))
    ensures !SameFrames(text)
  {
    var drops := Drip(text, |text|);
    LaterFrameDiffers(text, i);
    DripFindsAll(text, |text|);
    DripIsText(text, |text|);
    OneChunk("", text);
    assert "" + text == text;
    assert Concat(drops) == text && Read("", drops).frames != Read("", [text]).frames;
  }

  lemma NoLaterFrame(text: string, i: nat)
    requires FirstCrCrLf(text, i) && Count(Stripped(text)) <= Count(Normalized(text[..i]))
    ensures SameFrames(text) && Count(Stripped(text)) == Count(Normalized(text[..i]))
  {
    assert Concat([text]) == text by { assert [text][1..] == [] && text + "" == text; }
    CountIs(Normalized(text[..i]));
    FramesBetween(text, i, [text]);
    forall chunks: seq<string> | Concat(chunks) == text ensures Read("", chunks).frames == Read("", [text]).frames {
      FramesBetween(text, i, chunks);
    }
  }

  lemma FirstOf(text: string) returns (i: nat)
    requires HasCrCrLf(text)
    ensures FirstCrCrLf(text, i)
  {
    i := 0;
    while !CrCrLfAt(text, i)
      invariant forall j: nat :: j < i ==> !CrCrLfAt(text, j)
      decreases |text| - i
    {
      var k: nat :| CrCrLfAt(text, k);
      i := i + 1;
    }
  }
}
