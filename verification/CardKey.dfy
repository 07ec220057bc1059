/** The social-card key: what goes into the hash. */
module CardKey {
  import opened Options
  import opened Json
  import opened CanonicalJson

  const DEFAULT_EYEBROW := "GENERATIVE GRAPHICAL USER INTERFACE \U{B7} OPEN PROTOCOL"

  /** JSON.stringify with the key's replacer: each object is arranged as it is reached, then its members are printed. */
  function CardText(v: Json): string
    decreases v, 1
  {
    match v
    case Arr(items) => if items == [] then "[]" else "[" + CardText(items[0]) + CardItems(items[1..])
    case Obj(fs) => Braced(Arranged(CardMembers(fs), true))
    case _ => Print(v)
  }

  function CardItems(items: seq<Json>): string
    decreases items, 0
  {
    if items == [] then "]" else "," + CardText(items[0]) + CardItems(items[1..])
  }

  function CardMembers(fs: seq<Entry<Json>>): (r: seq<Entry<string>>)
    ensures |r| == |fs| && forall i :: 0 <= i < |fs| ==> r[i] == Entry(fs[i].key, CardText(fs[i].value))
    decreases fs, 0
  {
    if fs == [] then [] else [Entry(fs[0].key, CardText(fs[0].value))] + CardMembers(fs[1..])
  }

  /** { ...input, eyebrow: input.eyebrow ?? DEFAULT_EYEBROW } */
  function WithEyebrow(fs: seq<Entry<Json>>): seq<Entry<Json>> {
    if fs == [] then [Entry("eyebrow", Str(DEFAULT_EYEBROW))]
    else if fs[0].key == "eyebrow" then
      [Entry("eyebrow", if fs[0].value.Null? then Str(DEFAULT_EYEBROW) else fs[0].value)] + fs[1..]
    else [fs[0]] + WithEyebrow(fs[1..])
  }

  function OrEmpty(engine: Option<string>): string { if engine.None? then "" else engine.value }

  /** The hashed parts, joined with NUL. */
  function Joined(tag: string, digest: string, engine: string, canonical: string): string {
    tag + "\0" + digest + "\0" + engine + "\0" + canonical
  }

  function Preimage(digest: string, engine: Option<string>, input: seq<Entry<Json>>): string {
    Joined("social-card-key/v1", digest, OrEmpty(engine), CardText(Obj(WithEyebrow(input))))
  }

  // ---- The replacer sorts, and does nothing else ----

  lemma {:induction false} CardTextIsSorted(v: Json)
    requires Valid(v)
    ensures CardText(v) == Print(Sorted(v, true))
    decreases v, 1
  {
    match v
    case Arr(items) => if items != [] { CardTextIsSorted(items[0]); CardItemsIsSorted(items[1..]); }
    case Obj(fs) =>
      var xs := SortedValues(fs, true);
      forall i | 0 <= i < |fs| ensures CardText(fs[i].value) == Print(xs[i].value) { CardTextIsSorted(fs[i].value); }
      ArrangedThenPrinted(xs, CardMembers(fs));
    case _ =>
  }

  lemma {:induction false} CardItemsIsSorted(items: seq<Json>)
    requires Valid(Arr(items))
    ensures CardItems(items) == PrintItems(SortedItems(items, true))
    decreases items, 0
  {
    if items == [] {
    } else {
      CardTextIsSorted(items[0]);
      CardItemsIsSorted(items[1..]);
    }
  }

  /** Arranging printed members prints the arranged members. */
  lemma ArrangedThenPrinted(xs: seq<Entry<Json>>, ps: seq<Entry<string>>)
    requires DistinctKeys(xs) && |ps| == |xs|
    requires forall i :: 0 <= i < |xs| ==> ps[i] == Entry(xs[i].key, Print(xs[i].value))
    ensures Arranged(ps, true) == PrintValues(Arranged(xs, true))
  {
    var q := Arranged(xs, true);
    var r := PrintValues(q);
    ArrangedIs(xs, true);
    ArrangedIs(ps, true);
    PrintValuesAt(q);
    MappedElements(xs, q, ps, r, true);
    TextLessIsStrictTotal();
    OrderIsUnique(Arranged(ps, true), r, TextLess);
  }

  lemma {:induction false} PrintValuesAt(fs: seq<Entry<Json>>)
    ensures forall i :: 0 <= i < |fs| ==> PrintValues(fs)[i] == Entry(fs[i].key, Print(fs[i].value))
    decreases |fs|
  {
    if fs == [] {
    } else {
      PrintValuesAt(fs[1..]);
    }
  }

  // ---- The preimage determines its parts ----

  predicate NoNul(s: string) { '\0' !in s }

  lemma NulAt(a: string, x: string)
    ensures (a + ("\0" + x))[|a|] == '\0'
    ensures NoNul(a) ==> forall k :: 0 <= k < |a| ==> (a + ("\0" + x))[k] != '\0'
    ensures NoNul(x) ==> forall k :: |a| < k < |a + ("\0" + x)| ==> (a + ("\0" + x))[k] != '\0'
    ensures a == (a + ("\0" + x))[..|a|] && x == (a + ("\0" + x))[|a| + 1..]
  {
  }

  /** The first NUL ends a, or the last one does. */
  lemma NulSplit(a: string, b: string, x: string, y: string)
    requires (NoNul(a) && NoNul(b)) || (NoNul(x) && NoNul(y))
    requires a + ("\0" + x) == b + ("\0" + y)
    ensures a == b && x == y
  {
    NulAt(a, x);
    NulAt(b, y);
    assert |a| == |b|;
  }

  lemma {:induction false} WithEyebrowIsValid(fs: seq<Entry<Json>>)
    requires Valid(Obj(fs))
    ensures Valid(Obj(WithEyebrow(fs)))
    ensures forall i :: 0 <= i < |WithEyebrow(fs)| ==>
              WithEyebrow(fs)[i].key == "eyebrow" || exists j :: 0 <= j < |fs| && fs[j].key == WithEyebrow(fs)[i].key
    decreases |fs|
  {
    if fs != [] && fs[0].key != "eyebrow" {
      assert forall k :: 0 <= k < |fs[1..]| ==> fs[1..][k] == fs[k + 1];
      WithEyebrowIsValid(fs[1..]);
    }
  }

  lemma CardTextNoNul(fs: seq<Entry<Json>>)
    requires Valid(Obj(fs))
    ensures NoNul(CardText(Obj(WithEyebrow(fs))))
  {
    var v := Obj(WithEyebrow(fs));
    WithEyebrowIsValid(fs);
    CardTextIsSorted(v);
    SortedIsValid(v, true);
    PrintNoControl(Sorted(v, true));
  }

  /** The same engine, an absent one being an empty one. */
  predicate SameEngine(g: Option<string>, h: Option<string>) {
    g == h || (g in {None, Some("")} && h in {None, Some("")})
  }

  lemma SameEngineIff(g: Option<string>, h: Option<string>)
    ensures OrEmpty(g) == OrEmpty(h) <==> SameEngine(g, h)
  {
  }

  lemma SameInputIff(a: seq<Entry<Json>>, b: seq<Entry<Json>>)
    requires Valid(Obj(a)) && Valid(Obj(b))
    ensures CardText(Obj(WithEyebrow(a))) == CardText(Obj(WithEyebrow(b)))
       <==> Same(Obj(WithEyebrow(a)), Obj(WithEyebrow(b)), true)
  {
    var v, w := Obj(WithEyebrow(a)), Obj(WithEyebrow(b));
    WithEyebrowIsValid(a);
    WithEyebrowIsValid(b);
    TextIffSame(v, w, true);
    CardTextIsSorted(v);
    CardTextIsSorted(w);
  }

  lemma PartsIff(d: string, e: string, g: Option<string>, h: Option<string>, a: seq<Entry<Json>>, b: seq<Entry<Json>>)
    requires NoNul(d) && NoNul(e) && Valid(Obj(a)) && Valid(Obj(b))
    ensures Preimage(d, g, a) == Preimage(e, h, b)
       <==> d == e && OrEmpty(g) == OrEmpty(h) && CardText(Obj(WithEyebrow(a))) == CardText(Obj(WithEyebrow(b)))
  {
    if Preimage(d, g, a) == Preimage(e, h, b) {
      CardTextNoNul(a);
      CardTextNoNul(b);
      PreimageParts("social-card-key/v1", d, e, OrEmpty(g), OrEmpty(h),
                    CardText(Obj(WithEyebrow(a))), CardText(Obj(WithEyebrow(b))));
    }
  }

  /** For NUL-free digests, two preimages are equal exactly when digest, engine (absent is empty) and card input,
      up to key order and the default eyebrow, are equal. The engine may hold any characters. */
  lemma PreimageIff(d: string, e: string, g: Option<string>, h: Option<string>,
                    a: seq<Entry<Json>>, b: seq<Entry<Json>>)
    requires NoNul(d) && NoNul(e) && Valid(Obj(a)) && Valid(Obj(b))
    ensures Preimage(d, g, a) == Preimage(e, h, b)
       <==> d == e && SameEngine(g, h) && Same(Obj(WithEyebrow(a)), Obj(WithEyebrow(b)), true)
  {
    PartsIff(d, e, g, h, a, b);
    SameEngineIff(g, h);
    SameInputIff(a, b);
  }

  lemma PreimageParts(tag: string, d: string, e: string, g: string, h: string, x: string, y: string)
    requires NoNul(d) && NoNul(e) && NoNul(x) && NoNul(y)
    requires Joined(tag, d, g, x) == Joined(tag, e, h, y)
    ensures d == e && g == h && x == y
  {
    Regroup(tag, d, g, x);
    Regroup(tag, e, h, y);
    Drop(tag + "\0", d + ("\0" + (g + ("\0" + x))), e + ("\0" + (h + ("\0" + y))));
    NulSplit(d, e, g + ("\0" + x), h + ("\0" + y));
    NulSplit(g, h, x, y);
  }

  lemma Regroup(tag: string, d: string, g: string, x: string)
    ensures Joined(tag, d, g, x) == (tag + "\0") + (d + ("\0" + (g + ("\0" + x))))
  {
  }

  /** With a NUL in the digest, digest and engine could run into each other. */
  lemma NulInDigestCollides(d: string, g: string, h: string, x: seq<Entry<Json>>)
    ensures Preimage(d + "\0" + g, Some(h), x) == Preimage(d, Some(g + "\0" + h), x)
  {
    RunTogether("social-card-key/v1", d, g, h, CardText(Obj(WithEyebrow(x))));
  }

  lemma RunTogether(tag: string, d: string, g: string, h: string, x: string)
    ensures Joined(tag, d + "\0" + g, h, x) == Joined(tag, d, g + "\0" + h, x)
  {
  }

  // ---- The default eyebrow ----

  function Eyebrow(v: Json): Entry<Json> { Entry("eyebrow", if v.Null? then Str(DEFAULT_EYEBROW) else v) }

  lemma {:induction false} WithEyebrowReplaces(fs: seq<Entry<Json>>, i: nat)
    requires i < |fs| && fs[i].key == "eyebrow" && forall k :: 0 <= k < i ==> fs[k].key != "eyebrow"
    ensures WithEyebrow(fs) == fs[i := Eyebrow(fs[i].value)]
    decreases |fs|
  {
    if i == 0 {
    } else {
      WithEyebrowReplaces(fs[1..], i - 1);
    }
  }

  lemma {:induction false} WithEyebrowAppends(fs: seq<Entry<Json>>)
    requires forall k :: 0 <= k < |fs| ==> fs[k].key != "eyebrow"
    ensures WithEyebrow(fs) == fs + [Eyebrow(Null)]
    decreases |fs|
  {
    if fs == [] {
    } else {
      WithEyebrowAppends(fs[1..]);
    }
  }

  /** Leaving the eyebrow out, or setting it to null, keys the card like naming the default. */
  lemma DefaultEyebrowIsImplied(digest: string, engine: Option<string>, fs: seq<Entry<Json>>, i: nat)
    requires NoNul(digest) && Valid(Obj(fs))
    requires i < |fs| && fs[i].key == "eyebrow" && fs[i].value in {Null, Str(DEFAULT_EYEBROW)}
    ensures Preimage(digest, engine, fs) == Preimage(digest, engine, fs[..i] + fs[i + 1..])
  {
    EyebrowMoves(fs, i);
    WithoutOneIsValid(fs, i);
    MovedLast(WithEyebrow(fs), i, WithEyebrow(fs[..i] + fs[i + 1..]));
    PreimageIff(digest, digest, engine, engine, fs, fs[..i] + fs[i + 1..]);
  }

  lemma WithoutOneIsValid(fs: seq<Entry<Json>>, i: nat)
    requires i < |fs| && Valid(Obj(fs))
    ensures Valid(Obj(fs[..i] + fs[i + 1..]))
  {
    var gs := fs[..i] + fs[i + 1..];
    assert forall k :: 0 <= k < |gs| ==> gs[k] == if k < i then fs[k] else fs[k + 1];
  }

  lemma EyebrowMoves(fs: seq<Entry<Json>>, i: nat)
    requires i < |fs| && DistinctKeys(fs)
    requires fs[i].key == "eyebrow" && fs[i].value in {Null, Str(DEFAULT_EYEBROW)}
    ensures var a := WithEyebrow(fs);
            |a| == |fs| && WithEyebrow(fs[..i] + fs[i + 1..]) == a[..i] + a[i + 1..] + [a[i]]
  {
    WithEyebrowReplaces(fs, i);
    WithEyebrowAppends(fs[..i] + fs[i + 1..]);
  }

  lemma MovedLast(a: seq<Entry<Json>>, i: nat, b: seq<Entry<Json>>)
    requires i < |a| && b == a[..i] + a[i + 1..] + [a[i]]
    ensures Same(Obj(a), Obj(b), true)
  {
    var to := (k: int) => if k < i then k else if k == i then |a| - 1 else k - 1;
    var from := (k: int) => if k < i then k else if k == |a| - 1 then i else k + 1;
    Moved(a, i, b, to, from);
    ReorderedIsSame(a, b, true, to, from);
  }

  lemma Moved<T>(a: seq<T>, i: nat, b: seq<T>, to: int -> int, from: int -> int)
    requires i < |a| && b == a[..i] + a[i + 1..] + [a[i]]
    requires forall k :: to(k) == if k < i then k else if k == i then |a| - 1 else k - 1
    requires forall k :: from(k) == if k < i then k else if k == |a| - 1 then i else k + 1
    ensures forall k :: 0 <= k < |a| ==> 0 <= to(k) < |b| && b[to(k)] == a[k]
    ensures forall k :: 0 <= k < |b| ==> 0 <= from(k) < |a| && a[from(k)] == b[k]
  {
  }
}
