/** The two server-sent-event readers: the wire-scenario driver's startChat, and the preview
    client's readSseStream, which also turns CR LF into LF in the buffer it holds. */
module Sse {
  import opened Framing

  const BLANK_LINE := "\n\n"

  /** startChat's reader: the frames handed to handleFrame so far, and the buffer. */
  class ChatStream {
    var buffer: string
    var frames: seq<string>
    ghost var text: string  // everything decoded so far

    ghost predicate Valid() reads this {
      Pieces(frames, buffer) == Split(text, BLANK_LINE)
    }

    constructor ()
      ensures Valid() && text == ""
    {
      buffer, frames, text := "", [], "";
      new;
      SplitOpen("", BLANK_LINE);
    }

    /** Always: the frames are those of the text, whatever the chunks were. */
    method OnText(chunk: string)
      requires Valid()
      modifies this
      ensures Valid() && text == old(text) + chunk
      ensures old(frames) <= frames
    {
      ghost var before := buffer + chunk;
      SplitAppend(text, chunk, BLANK_LINE);
      text := text + chunk;
      buffer := buffer + chunk;
      ghost var out: seq<string> := [];
      NoPieceYet(before, BLANK_LINE);
      var split := IndexOf(buffer, BLANK_LINE);
      while split >= 0
        invariant split == IndexOf(buffer, BLANK_LINE)
        invariant text == old(text) + chunk
        invariant frames == old(frames) + out
        invariant Split(before, BLANK_LINE) == Then(Pieces(out, ""), Split(buffer, BLANK_LINE))
        decreases |buffer|
      {
        NextPiece(before, out, buffer, split, BLANK_LINE);
        frames := frames + [buffer[..split]];
        out := out + [buffer[..split]];
        buffer := buffer[split + 2..];
        split := IndexOf(buffer, BLANK_LINE);
      }
      LastPiece(before, out, buffer, BLANK_LINE);
    }
  }

  /** Every CR LF becomes LF, in one pass from the left. */
  function Normalized(s: string): (r: string)
    ensures |r| <= |s|
  {
    if |s| < 2 then s
    else if s[0] == '\r' && s[1] == '\n' then "\n" + Normalized(s[2..])
    else [s[0]] + Normalized(s[1..])
  }

  ghost predicate CrLfAt(s: string, i: nat) { i + 1 < |s| && s[i] == '\r' && s[i + 1] == '\n' }

  ghost predicate HasCrLf(s: string) { exists i: nat :: CrLfAt(s, i) }

  ghost predicate CrCrLfAt(s: string, i: nat) { i + 2 < |s| && s[i] == '\r' && s[i + 1] == '\r' && s[i + 2] == '\n' }

  ghost predicate HasCrCrLf(s: string) { exists i: nat :: CrCrLfAt(s, i) }

  ghost predicate EndsWith(s: string, c: char) { s != "" && s[|s| - 1] == c }

  ghost predicate CutsCrLf(a: string, b: string) { EndsWith(a, '\r') && b != "" && b[0] == '\n' }

  lemma PartHasNone(a: string, b: string)
    ensures HasCrLf(a) || HasCrLf(b) ==> HasCrLf(a + b)
    ensures HasCrCrLf(a) || HasCrCrLf(b) ==> HasCrCrLf(a + b)
  {
    if i: nat :| CrLfAt(a, i) { assert CrLfAt(a + b, i); }
    if i: nat :| CrLfAt(b, i) { assert CrLfAt(a + b, |a| + i); }
    if i: nat :| CrCrLfAt(a, i) { assert CrCrLfAt(a + b, i); }
    if i: nat :| CrCrLfAt(b, i) { assert CrCrLfAt(a + b, |a| + i); }
  }

  /** What follows the first character, or the first CR LF. */
  function Rest(s: string): (r: string)
    requires s != ""
    ensures |r| < |s|
  {
    if |s| >= 2 && s[0] == '\r' && s[1] == '\n' then s[2..] else s[1..]
  }

  lemma NormalizedRest(s: string)
    requires s != ""
    ensures Normalized(s) == [if CrLfAt(s, 0) then '\n' else s[0]] + Normalized(Rest(s))
  {
  }

  lemma RestAppend(a: string, b: string)
    requires a != "" && !CutsCrLf(a, b)
    ensures Rest(a + b) == Rest(a) + b && !CutsCrLf(Rest(a), b)
    ensures (a + b)[0] == a[0] && (CrLfAt(a + b, 0) <==> CrLfAt(a, 0))
  {
  }

  lemma {:induction false} NormalizedAppend(a: string, b: string)
    requires !CutsCrLf(a, b)
    ensures Normalized(a + b) == Normalized(a) + Normalized(b)
    decreases |a|
  {
    if a == "" {
      assert a + b == b;
    } else {
      RestAppend(a, b);
      NormalizedRest(a);
      NormalizedRest(a + b);
      NormalizedAppend(Rest(a), b);
      OneMore(if CrLfAt(a, 0) then '\n' else a[0], Normalized(Rest(a)), Normalized(b));
    }
  }

  lemma OneMore(c: char, x: string, y: string)
    ensures [c] + (x + y) == ([c] + x) + y
  {
  }

  lemma {:induction false} NormalizedFixed(s: string)
    requires !HasCrLf(s)
    ensures Normalized(s) == s
    decreases |s|
  {
    if |s| >= 2 {
      assert !CrLfAt(s, 0);
      assert s == [s[0]] + s[1..];
      PartHasNone([s[0]], s[1..]);
      NormalizedFixed(s[1..]);
    }
  }

  /** The two equations of the replacement: a CR LF becomes one LF wherever it stands, and nothing else changes. */
  lemma CrLfBecomesLf(a: string, b: string)
    ensures Normalized(a + "\r\n" + b) == Normalized(a) + "\n" + Normalized(b)
    ensures !HasCrLf(a) ==> Normalized(a) == a
  {
    assert a + "\r\n" + b == a + ("\r\n" + b);
    NormalizedAppend(a, "\r\n" + b);
    assert ("\r\n" + b)[2..] == b;
    if !HasCrLf(a) { NormalizedFixed(a); }
  }

  lemma {:induction false} NormalizedEnd(s: string, c: char)
    ensures EndsWith(Normalized(s), c) <==> EndsWith(s, c)
    ensures s != "" ==> Normalized(s) != ""
    decreases |s|
  {
    if s == "" {
    } else {
      NormalizedRest(s);
      NormalizedEnd(Rest(s), c);
    }
  }

  /** Without CR CR LF, one pass leaves no CR LF. */
  lemma {:induction false} NormalizedHasNone(s: string)
    requires !HasCrCrLf(s)
    ensures !HasCrLf(Normalized(s))
    ensures s != "" && Normalized(s)[0] == '\n' ==> s[0] == '\n' || CrLfAt(s, 0)
    decreases |s|
  {
    if s == "" {
    } else {
      NormalizedRest(s);
      assert s == s[..|s| - |Rest(s)|] + Rest(s);
      PartHasNone(s[..|s| - |Rest(s)|], Rest(s));
      NormalizedHasNone(Rest(s));
      NormalizedEnd(Rest(s), 'x');
      if i: nat :| CrLfAt(Normalized(s), i) {
        if i > 0 {
          assert CrLfAt(Normalized(Rest(s)), i - 1);
        } else {
          assert s[0] == '\r' && !CrLfAt(s, 0) && Rest(s) == s[1..];
          assert CrCrLfAt(s, 0);
        }
      }
    }
  }

  /** After a text without CR CR LF, normalising it again with what follows is normalising once. */
  lemma NormalizedAgain(a: string, b: string)
    requires !HasCrCrLf(a)
    ensures Normalized(Normalized(a) + b) == Normalized(a + b)
  {
    NormalizedHasNone(a);
    NormalizedFixed(Normalized(a));
    NormalizedEnd(a, '\r');
    if CutsCrLf(a, b) {
      var a' := a[..|a| - 1];
      assert a == a' + "\r";
      PartHasNone(a', "\r");
      NormalizedAgainAtCut(a', b);
    } else {
      NormalizedAppend(a, b);
      NormalizedAppend(Normalized(a), b);
    }
  }

  lemma NormalizedAgainAtCut(a: string, b: string)
    requires !HasCrCrLf(a)
    ensures Normalized(Normalized(a + "\r") + b) == Normalized((a + "\r") + b)
  {
    NormalizedHasNone(a);
    NormalizedFixed(Normalized(a));
    BeforeCr(a, "\r");
    CrMoves(a, b);
    CrMoves(Normalized(a), b);
    BeforeCr(a, "\r" + b);
    BeforeCr(Normalized(a), "\r" + b);
  }

  lemma CrMoves(s: string, b: string)
    ensures (s + "\r") + b == s + ("\r" + b)
  {
  }

  lemma BeforeCr(a: string, tail: string)
    requires tail != "" && tail[0] == '\r'
    ensures Normalized(a + tail) == Normalized(a) + Normalized(tail)
    ensures Normalized("\r") == "\r"
  {
    NormalizedAppend(a, tail);
  }

  /** readSseStream on a list of chunks: normalise the whole held buffer again at each chunk, then cut. */
  ghost function Read(held: string, chunks: seq<string>): Pieces<char>
    decreases |chunks|
  {
    if chunks == [] then Pieces([], held)
    else
      var p := Split(Normalized(held + chunks[0]), BLANK_LINE);
      Then(p, Read(p.held, chunks[1..]))
  }

  lemma {:induction false} JoinedEnd(frames: seq<string>)
    ensures var j := Joined(frames, BLANK_LINE); j != "" ==> |j| >= 2 && j[|j| - 2..] == BLANK_LINE && EndsWith(j, '\n')
    decreases |frames|
  {
    if frames == [] {
    } else {
      JoinedEnd(frames[1..]);
      var j := Joined(frames[1..], BLANK_LINE);
      assert j == "" ==> Joined(frames, BLANK_LINE) == frames[0] + BLANK_LINE;
    }
  }

  /** One chunk, from the state that a text without CR CR LF leads to. */
  lemma ReadChunk(text: string, chunk: string)
    requires !HasCrCrLf(text)
    ensures var p := Split(Normalized(text), BLANK_LINE);
            Split(Normalized(text + chunk), BLANK_LINE) == Then(p, Split(Normalized(p.held + chunk), BLANK_LINE))
  {
    var n := Normalized(text);
    var p := Split(n, BLANK_LINE);
    var j := Joined(p.frames, BLANK_LINE);
    NormalizedAgain(text, chunk);
    assert n + chunk == j + (p.held + chunk);
    JoinedEnd(p.frames);
    NormalizedAppend(j, p.held + chunk);
    NormalizedHasNone(text);
    PartHasNone(j, p.held);
    NormalizedFixed(j);
    SplitJoined(p.frames, Normalized(p.held + chunk), BLANK_LINE);
  }

  lemma {:induction false} ReadIsSplit(text: string, chunks: seq<string>)
    requires !HasCrCrLf(text + Concat(chunks))
    ensures var p := Split(Normalized(text), BLANK_LINE);
            Then(p, Read(p.held, chunks)) == Split(Normalized(text + Concat(chunks)), BLANK_LINE)
    decreases |chunks|
  {
    var p := Split(Normalized(text), BLANK_LINE);
    if chunks == [] {
      assert text + Concat(chunks) == text;
      assert p.frames + [] == p.frames;
    } else {
      var t := text + chunks[0];
      assert text + Concat(chunks) == t + Concat(chunks[1..]);
      PartHasNone(t, Concat(chunks[1..]));
      PartHasNone(text, chunks[0]);
      ReadChunk(text, chunks[0]);
      ReadIsSplit(t, chunks[1..]);
      var q := Split(Normalized(p.held + chunks[0]), BLANK_LINE);
      ThenIsAssociative(p, q, Read(q.held, chunks[1..]));
    }
  }

  /** Text without CR CR LF: the frames and the held buffer depend on the text alone. */
  lemma ReadDependsOnText(chunks: seq<string>)
    requires !HasCrCrLf(Concat(chunks))
    ensures Read("", chunks) == Split(Normalized(Concat(chunks)), BLANK_LINE)
  {
    assert "" + Concat(chunks) == Concat(chunks);
    SplitOpen("", BLANK_LINE);
    ReadIsSplit("", chunks);
    assert [] + Read("", chunks).frames == Read("", chunks).frames;
  }

  ghost function Length(p: Pieces<char>): nat { |Joined(p.frames, BLANK_LINE)| + |p.held| }

  lemma {:induction false} LengthThen(p: Pieces<char>, q: Pieces<char>)
    ensures Length(Then(p, q)) == |Joined(p.frames, BLANK_LINE)| + Length(q)
    decreases |p.frames|
  {
    if p.frames == [] {
      assert p.frames + q.frames == q.frames;
    } else {
      LengthThen(Pieces(p.frames[1..], p.held), q);
      assert (p.frames + q.frames)[1..] == p.frames[1..] + q.frames;
    }
  }

  /** A normalised text that still ends in CR LF holds that CR LF back. */
  lemma HeldKeepsCrLf(n: string)
    requires |n| >= 2 && CrLfAt(n, |n| - 2)
    ensures var h := Split(n, BLANK_LINE).held; |h| >= 2 && CrLfAt(h, |h| - 2)
  {
    var p := Split(n, BLANK_LINE);
    var j := Joined(p.frames, BLANK_LINE);
    JoinedEnd(p.frames);
  }

  /** Cutting the stream right after a CR CR LF drops one more CR than reading it whole. */
  lemma CutAfterCrCrLf(a: string, b: string)
    requires |a| >= 3 && CrCrLfAt(a, |a| - 3)
    ensures Length(Read("", [a, b])) < Length(Read("", [a + b]))
  {
    var n := Normalized(a);
    OnePassLeavesCr(a);
    HeldKeepsCrLf(n);
    var p := Split(n, BLANK_LINE);
    AgainDropsCr(p.held, b);
    OneChunk(p.held, b);
    TwoChunks(a, b);
    var q := Split(Normalized(p.held + b), BLANK_LINE);
    LengthThen(p, q);
    WholeLength(a, b);
  }

  lemma OnePassLeavesCr(a: string)
    requires |a| >= 3 && CrCrLfAt(a, |a| - 3)
    ensures var n := Normalized(a); |n| >= 2 && CrLfAt(n, |n| - 2)
  {
    var x := a[..|a| - 3];
    assert a == (x + "\r") + "\r\n";
    NormalizedAppend(x + "\r", "\r\n");
    NormalizedAppend(x, "\r");
  }

  lemma WholeLength(a: string, b: string)
    requires !EndsWith(a, '\r')
    ensures Length(Read("", [a + b])) == |Normalized(a)| + |Normalized(b)|
  {
    OneChunk("", a + b);
    assert "" + (a + b) == a + b;
    NormalizedAppend(a, b);
  }

  lemma AgainDropsCr(held: string, b: string)
    requires |held| >= 2 && CrLfAt(held, |held| - 2)
    ensures |Normalized(held + b)| < |held| + |Normalized(b)|
  {
    var h := held[..|held| - 2];
    assert held == h + "\r\n";
    NormalizedAppend(held, b);
    NormalizedAppend(h, "\r\n");
  }

  lemma OneChunk(held: string, chunk: string)
    ensures Read(held, [chunk]) == Split(Normalized(held + chunk), BLANK_LINE)
  {
    var p := Split(Normalized(held + chunk), BLANK_LINE);
    assert [chunk][1..] == [];
    assert p.frames + [] == p.frames;
  }

  lemma TwoChunks(a: string, b: string)
    ensures var p := Split(Normalized(a), BLANK_LINE); Read("", [a, b]) == Then(p, Read(p.held, [b]))
  {
    assert [a, b][1..] == [b];
    assert "" + a == a;
  }

  /** Exactly when the chunk boundaries do not matter to the preview client's reader. */
  lemma ChunksDoNotMatterIff(text: string)
    ensures (forall chunks: seq<string> :: Concat(chunks) == text ==> Read("", chunks) == Read("", [text]))
            <==> !HasCrCrLf(text)
  {
    assert [text][1..] == [] && text + "" == text;
    assert Concat([text]) == text;
    if i: nat :| CrCrLfAt(text, i) {
      var a, b := text[..i + 3], text[i + 3..];
      assert a + b == text && CrCrLfAt(a, i);
      CutAfterCrCrLf(a, b);
      assert [a, b][1..] == [b] && [b][1..] == [];
      assert Concat([b]) == b + "" == b;
      assert Concat([a, b]) == text;
    } else {
      forall chunks: seq<string> | Concat(chunks) == text ensures Read("", chunks) == Read("", [text]) {
        ReadDependsOnText(chunks);
        ReadDependsOnText([text]);
      }
    }
  }

  /** readSseStream's reader. */
  class PreviewStream {
    var buffer: string
    var frames: seq<string>
    ghost var chunks: seq<string>

    ghost predicate Valid() reads this {
      Pieces(frames, buffer) == Read("", chunks)
    }

    constructor ()
      ensures Valid() && chunks == []
    {
      buffer, frames, chunks := "", [], [];
    }

    method OnText(chunk: string)
      requires Valid()
      modifies this
      ensures Valid() && chunks == old(chunks) + [chunk]
      ensures old(frames) <= frames
      ensures !HasCrCrLf(Concat(chunks)) ==> Pieces(frames, buffer) == Split(Normalized(Concat(chunks)), BLANK_LINE)
    {
      ReadSnoc("", chunks, chunk);
      chunks := chunks + [chunk];
      buffer := Normalized(buffer + chunk);
      ghost var before := buffer;
      ghost var out: seq<string> := [];
      NoPieceYet(before, BLANK_LINE);
      var sep := IndexOf(buffer, BLANK_LINE);
      while sep != -1
        invariant sep == IndexOf(buffer, BLANK_LINE)
        invariant chunks == old(chunks) + [chunk]
        invariant frames == old(frames) + out
        invariant Split(before, BLANK_LINE) == Then(Pieces(out, ""), Split(buffer, BLANK_LINE))
        decreases |buffer|
      {
        NextPiece(before, out, buffer, sep, BLANK_LINE);
        frames := frames + [buffer[..sep]];
        out := out + [buffer[..sep]];
        buffer := buffer[sep + 2..];
        sep := IndexOf(buffer, BLANK_LINE);
      }
      LastPiece(before, out, buffer, BLANK_LINE);
      if !HasCrCrLf(Concat(chunks)) { ReadDependsOnText(chunks); }
    }
  }

  lemma {:induction false} ReadSnoc(held: string, chunks: seq<string>, chunk: string)
    ensures var p := Read(held, chunks);
            Read(held, chunks + [chunk]) == Then(p, Split(Normalized(p.held + chunk), BLANK_LINE))
    decreases |chunks|
  {
    if chunks == [] {
      assert chunks + [chunk] == [chunk];
      OneChunk(held, chunk);
      var q := Split(Normalized(held + chunk), BLANK_LINE);
      assert [] + q.frames == q.frames;
    } else {
      var p := Split(Normalized(held + chunks[0]), BLANK_LINE);
      assert (chunks + [chunk])[1..] == chunks[1..] + [chunk];
      ReadSnoc(p.held, chunks[1..], chunk);
      var r := Read(p.held, chunks[1..]);
      ThenIsAssociative(p, r, Split(Normalized(r.held + chunk), BLANK_LINE));
    }
  }
}
