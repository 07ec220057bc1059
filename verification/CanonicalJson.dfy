/** Key-sorted JSON text, at every depth, as gadget signing and the social-card key produce it. */
module CanonicalJson {
  import opened Json

  // ---- The order in which JavaScript's < puts strings ----

  /** UTF-16 code units of one character. */
  function Units(c: char): (r: seq<int>)
    ensures r != []
  {
    if c as int < 0x1_0000 then [c as int]
    else [0xD800 + (c as int - 0x1_0000) / 0x400, 0xDC00 + (c as int - 0x1_0000) % 0x400]
  }

  function Utf16(s: string): seq<int> {
    if s == "" then [] else Units(s[0]) + Utf16(s[1..])
  }

  predicate UnitLess(a: seq<int>, b: seq<int>) {
    b != [] && (a == [] || a[0] < b[0] || (a[0] == b[0] && UnitLess(a[1..], b[1..])))
  }

  predicate KeyLess(a: string, b: string) { UnitLess(Utf16(a), Utf16(b)) }

  // ---- The order in which an object keeps its own keys ----

  predicate Decimal(k: string) {
    k != "" && (k == "0" || k[0] != '0') && forall i :: 0 <= i < |k| ==> '0' <= k[i] <= '9'
  }

  function DecimalValue(k: string): int {
    if k == "" then 0 else 10 * DecimalValue(k[..|k| - 1]) + (k[|k| - 1] as int - '0' as int)
  }

  /** An array index: a decimal below 2^32 - 1. */
  predicate IsIndex(k: string) { Decimal(k) && DecimalValue(k) < 0xFFFF_FFFF }

  /** Index keys come first, by number; every other key goes after the keys already there. */
  predicate OwnLess(a: string, b: string) {
    IsIndex(a) && (!IsIndex(b) || DecimalValue(a) < DecimalValue(b))
  }

  /** The order of the keys in the text: own-key order over keys inserted in KeyLess order. */
  predicate TextLess(a: string, b: string) { OwnLess(a, b) || (!IsIndex(a) && !IsIndex(b) && KeyLess(a, b)) }

  // ---- Sorting by insertion ----

  type Less = (string, string) -> bool

  function Place<T>(es: seq<Entry<T>>, e: Entry<T>, less: Less): seq<Entry<T>> {
    if es == [] || less(e.key, es[0].key) then [e] + es else [es[0]] + Place(es[1..], e, less)
  }

  function SortBy<T>(es: seq<Entry<T>>, less: Less): seq<Entry<T>> {
    if es == [] then [] else Place(SortBy(es[..|es| - 1], less), es[|es| - 1], less)
  }

  /** Which members survive: out[k] = v on a plain object makes no own member for the key "__proto__". */
  predicate Lands(key: string, keepsProto: bool) { keepsProto || key != "__proto__" }

  /** Adds the entries to a new object one by one. */
  function Assigned<T>(es: seq<Entry<T>>, keepsProto: bool): seq<Entry<T>> {
    if es == [] then []
    else
      var out := Assigned(es[..|es| - 1], keepsProto);
      var e := es[|es| - 1];
      if Lands(e.key, keepsProto) then Place(out, e, OwnLess) else out
  }

  /** An object's members as they end up in the text. */
  function Arranged<T>(es: seq<Entry<T>>, keepsProto: bool): seq<Entry<T>> {
    Assigned(SortBy(es, KeyLess), keepsProto)
  }

  /** The value with the keys of every object sorted. That values are sorted before they are arranged, not as they
      are assigned, makes no difference: SortedInPlace. */
  function Sorted(v: Json, keepsProto: bool): Json
    decreases v, 1
  {
    match v
    case Arr(items) => Arr(SortedItems(items, keepsProto))
    case Obj(fs) => Obj(Arranged(SortedValues(fs, keepsProto), keepsProto))
    case _ => v
  }

  function SortedItems(items: seq<Json>, keepsProto: bool): (r: seq<Json>)
    ensures |r| == |items| && forall i :: 0 <= i < |r| ==> r[i] == Sorted(items[i], keepsProto)
    decreases items, 0
  {
    if items == [] then [] else [Sorted(items[0], keepsProto)] + SortedItems(items[1..], keepsProto)
  }

  function SortedValues(fs: seq<Entry<Json>>, keepsProto: bool): (r: seq<Entry<Json>>)
    ensures |r| == |fs|
    ensures forall i :: 0 <= i < |r| ==> r[i] == Entry(fs[i].key, Sorted(fs[i].value, keepsProto))
    decreases fs, 0
  {
    if fs == [] then []
    else [Entry(fs[0].key, Sorted(fs[0].value, keepsProto))] + SortedValues(fs[1..], keepsProto)
  }

  /** canonicalJson of gadget signing. */
  function SigningText(v: Json): string { Print(Sorted(v, false)) }

  // ---- Equal up to key order ----

  /** Every surviving member of either object has a counterpart in the other. */
  ghost predicate Matched<S, T>(fs: seq<Entry<S>>, gs: seq<Entry<T>>, keepsProto: bool, same: (int, int) -> bool) {
    && (forall i :: 0 <= i < |fs| && Lands(fs[i].key, keepsProto) ==> exists j :: 0 <= j < |gs| && same(i, j))
    && (forall j :: 0 <= j < |gs| && Lands(gs[j].key, keepsProto) ==> exists i :: 0 <= i < |fs| && same(i, j))
  }

  /** Equal up to the order of keys at every depth, over the members that survive. */
  ghost predicate Same(a: Json, b: Json, keepsProto: bool)
    decreases a, 1
  {
    match a
    case Arr(items) =>
      && b.Arr? && |b.items| == |items|
      && forall i :: 0 <= i < |items| ==> Same(items[i], b.items[i], keepsProto)
    case Obj(fs) => b.Obj? && Matched(fs, b.fields, keepsProto, SameMember(fs, b.fields, keepsProto))
    case _ => a == b
  }

  /** Members i and j have the same key and the same value. */
  ghost function SameMember(fs: seq<Entry<Json>>, gs: seq<Entry<Json>>, keepsProto: bool): (int, int) -> bool
    decreases fs, 0
  {
    (i, j) => 0 <= i < |fs| && 0 <= j < |gs| && fs[i].key == gs[j].key && Same(fs[i].value, gs[j].value, keepsProto)
  }

  // ---- KeyLess and TextLess are strict total orders ----

  lemma UnitsSplit(c: char, d: char, x: seq<int>, y: seq<int>)
    requires Units(c) + x == Units(d) + y
    ensures c == d && x == y
  {
    var l, r := Units(c) + x, Units(d) + y;
    assert l[0] == Units(c)[0] && r[0] == Units(d)[0];
    if |Units(c)| > 1 && |Units(d)| > 1 {
      assert l[1] == Units(c)[1] && r[1] == Units(d)[1];
    }
    assert x == l[|Units(c)|..] && y == r[|Units(d)|..];
  }

  lemma {:induction false} Utf16IsInjective(s: string, t: string)
    requires Utf16(s) == Utf16(t)
    ensures s == t
    decreases |s|
  {
    if s != "" && t != "" {
      UnitsSplit(s[0], t[0], Utf16(s[1..]), Utf16(t[1..]));
      Utf16IsInjective(s[1..], t[1..]);
      assert s == [s[0]] + s[1..] && t == [t[0]] + t[1..];
    }
  }

  lemma {:induction false} UnitLessIsTotal(a: seq<int>, b: seq<int>)
    ensures a == b || UnitLess(a, b) || UnitLess(b, a)
    ensures !(UnitLess(a, b) && UnitLess(b, a)) && (UnitLess(a, b) ==> a != b)
    decreases |a|
  {
    if a != [] && b != [] {
      UnitLessIsTotal(a[1..], b[1..]);
      assert a == [a[0]] + a[1..] && b == [b[0]] + b[1..];
    }
  }

  /** The first difference decides; a proper prefix comes first. */
  lemma {:induction false} FirstDifferenceDecides(a: seq<int>, b: seq<int>, n: nat)
    requires n <= |a| && n <= |b| && a[..n] == b[..n]
    requires (n < |a| && n < |b| && a[n] != b[n]) || n == |a| || n == |b|
    ensures UnitLess(a, b) <==> n < |b| && (n == |a| || a[n] < b[n])
    decreases n
  {
    if n == 0 {
    } else {
      assert a[0] == a[..n][0] && b[0] == b[..n][0];
      assert a[1..][..n - 1] == a[..n][1..] && b[1..][..n - 1] == b[..n][1..];
      FirstDifferenceDecides(a[1..], b[1..], n - 1);
    }
  }

  /** Array indices come first and by number; a character beyond the basic plane sorts before U+E000. */
  lemma OrderExamples()
    ensures TextLess("9", "10") && TextLess("10", "01") && TextLess("01", "a") && TextLess("4294967294", "4294967295")
    ensures TextLess("B", "a") && TextLess("a", "aa") && TextLess("\U{1F600}", "\U{FF01}")
  {
    assert "10"[..1] == "1" && "1"[..0] == "" && "9"[..0] == "";
    assert DecimalValue("1") == 1 && DecimalValue("10") == 10 && DecimalValue("9") == 9;
    assert IsIndex("9") && IsIndex("10") && !IsIndex("01") && !IsIndex("a");
    LargestIndex();
    assert Utf16("01") == [48] + Utf16("1") && "01"[1..] == "1";
    assert Utf16("B") == [66] && Utf16("a") == [97] && Utf16("aa") == [97] + Utf16("a");
    assert "aa"[1..] == "a" && UnitLess([], [97]);
    assert Utf16("\U{1F600}") == [0xD83D, 0xDE00] && Utf16("\U{FF01}") == [0xFF01];
    assert !IsIndex("B") && !IsIndex("aa");
  }

  lemma LargestIndex()
    ensures IsIndex("4294967294") && !IsIndex("4294967295")
  {
    var s := "4294967294";
    assert DecimalValue(s[..1]) == 4 by { assert s[..1][..0] == ""; }
    assert DecimalValue(s[..2]) == 42 by { assert s[..2][..1] == s[..1]; }
    assert DecimalValue(s[..3]) == 429 by { assert s[..3][..2] == s[..2]; }
    assert DecimalValue(s[..4]) == 4294 by { assert s[..4][..3] == s[..3]; }
    assert DecimalValue(s[..5]) == 42949 by { assert s[..5][..4] == s[..4]; }
    assert DecimalValue(s[..6]) == 429496 by { assert s[..6][..5] == s[..5]; }
    assert DecimalValue(s[..7]) == 4294967 by { assert s[..7][..6] == s[..6]; }
    assert DecimalValue(s[..8]) == 42949672 by { assert s[..8][..7] == s[..7]; }
    assert DecimalValue(s[..9]) == 429496729 by { assert s[..9][..8] == s[..8]; }
    assert s[..10][..9] == s[..9] && s[..10] == s;
    var t := "4294967295";
    assert t[..9] == s[..9];
  }

  lemma {:induction false} UnitLessIsTransitive(a: seq<int>, b: seq<int>, c: seq<int>)
    requires UnitLess(a, b) && UnitLess(b, c)
    ensures UnitLess(a, c)
    decreases |a|
  {
    if a != [] && a[0] == b[0] == c[0] {
      UnitLessIsTransitive(a[1..], b[1..], c[1..]);
    }
  }

  lemma {:induction false} DecimalValueIsInjective(a: string, b: string)
    requires Decimal(a) && Decimal(b) && DecimalValue(a) == DecimalValue(b)
    ensures a == b
    decreases |a|
  {
    DecimalAtLeastTen(a);
    DecimalAtLeastTen(b);
    if |a| > 1 {
      DecimalValueIsInjective(a[..|a| - 1], b[..|b| - 1]);
      assert a == a[..|a| - 1] + [a[|a| - 1]] && b == b[..|b| - 1] + [b[|b| - 1]];
    }
  }

  lemma {:induction false} DecimalAtLeastTen(a: string)
    requires Decimal(a)
    ensures 0 <= DecimalValue(a) && (|a| > 1 <==> DecimalValue(a) >= 10) && (a != "0" ==> DecimalValue(a) >= 1)
    ensures |a| > 1 ==> Decimal(a[..|a| - 1])
    decreases |a|
  {
    var init := a[..|a| - 1];
    if |a| > 1 {
      assert init[0] == a[0] && init != "0" by { assert init[0] == a[0]; }
      DecimalAtLeastTen(init);
    } else {
      assert a == [a[0]] && DecimalValue(init) == 0;
      assert a != "0" ==> a[0] != '0';
    }
  }

  ghost predicate StrictTotal(less: Less) {
    && (forall a, b :: less(a, b) ==> !less(b, a))
    && (forall a, b :: a == b || less(a, b) || less(b, a))
    && (forall a, b, c :: less(a, b) && less(b, c) ==> less(a, c))
  }

  lemma KeyLessIsStrictTotal()
    ensures StrictTotal(KeyLess)
  {
    forall a, b
      ensures !(KeyLess(a, b) && KeyLess(b, a)) && (a == b || KeyLess(a, b) || KeyLess(b, a))
    {
      UnitLessIsTotal(Utf16(a), Utf16(b));
      if Utf16(a) == Utf16(b) { Utf16IsInjective(a, b); }
    }
    forall a, b, c | KeyLess(a, b) && KeyLess(b, c) ensures KeyLess(a, c) {
      UnitLessIsTransitive(Utf16(a), Utf16(b), Utf16(c));
    }
  }

  lemma TextLessIsStrictTotal()
    ensures StrictTotal(TextLess)
  {
    KeyLessIsStrictTotal();
    forall a, b
      ensures a == b || TextLess(a, b) || TextLess(b, a)
    {
      if IsIndex(a) && IsIndex(b) && DecimalValue(a) == DecimalValue(b) { DecimalValueIsInjective(a, b); }
    }
  }

  // ---- What insertion does ----

  ghost predicate InOrder<T>(es: seq<Entry<T>>, before: Less) {
    forall i, j :: 0 <= i < j < |es| ==> before(es[i].key, es[j].key)
  }

  lemma {:induction false} PlaceElements<T>(es: seq<Entry<T>>, e: Entry<T>, less: Less, x: Entry<T>)
    ensures x in Place(es, e, less) <==> x in es || x == e
    decreases |es|
  {
    if es != [] && !less(e.key, es[0].key) {
      PlaceElements(es[1..], e, less, x);
      assert es == [es[0]] + es[1..];
    }
  }

  /** Inserting keeps any order that agrees with the comparison on the new key. */
  lemma {:induction false} PlaceKeepsOrder<T>(es: seq<Entry<T>>, e: Entry<T>, less: Less, before: Less)
    requires StrictTotal(before) && InOrder(es, before)
    requires forall i :: 0 <= i < |es| ==>
               if less(e.key, es[i].key) then before(e.key, es[i].key) else before(es[i].key, e.key)
    ensures InOrder(Place(es, e, less), before)
    decreases |es|
  {
    if es != [] && !less(e.key, es[0].key) {
      PlaceKeepsOrder(es[1..], e, less, before);
      var r := Place(es[1..], e, less);
      forall j | 0 <= j < |r| ensures before(es[0].key, r[j].key) {
        PlaceElements(es[1..], e, less, r[j]);
      }
    }
  }

  lemma {:induction false} SortByElements<T>(es: seq<Entry<T>>, less: Less, x: Entry<T>)
    ensures x in SortBy(es, less) <==> x in es
    decreases |es|
  {
    if es == [] {
    } else {
      var init := es[..|es| - 1];
      SortByElements(init, less, x);
      PlaceElements(SortBy(init, less), es[|es| - 1], less, x);
      assert es == init + [es[|es| - 1]];
    }
  }

  lemma SortByKeeps<T(!new)>(es: seq<Entry<T>>, less: Less)
    ensures forall x :: x in SortBy(es, less) <==> x in es
  {
    forall x ensures x in SortBy(es, less) <==> x in es { SortByElements(es, less, x); }
  }

  lemma {:induction false} SortByOrders<T>(es: seq<Entry<T>>, less: Less)
    requires StrictTotal(less) && DistinctKeys(es)
    ensures InOrder(SortBy(es, less), less)
    decreases |es|
  {
    if es == [] {
    } else {
      var init, e := es[..|es| - 1], es[|es| - 1];
      SortByOrders(init, less);
      var s := SortBy(init, less);
      forall i | 0 <= i < |s| ensures s[i].key != e.key {
        SortByElements(init, less, s[i]);
      }
      PlaceKeepsOrder(s, e, less, less);
    }
  }

  lemma {:induction false} AssignedElements<T>(es: seq<Entry<T>>, keepsProto: bool, x: Entry<T>)
    ensures x in Assigned(es, keepsProto) <==> x in es && Lands(x.key, keepsProto)
    decreases |es|
  {
    if es == [] {
    } else {
      var init := es[..|es| - 1];
      AssignedElements(init, keepsProto, x);
      PlaceElements(Assigned(init, keepsProto), es[|es| - 1], OwnLess, x);
      assert es == init + [es[|es| - 1]];
    }
  }

  lemma {:induction false} AssignedOrders<T>(es: seq<Entry<T>>, keepsProto: bool)
    requires StrictTotal(TextLess) && StrictTotal(KeyLess) && InOrder(es, KeyLess)
    ensures InOrder(Assigned(es, keepsProto), TextLess)
    decreases |es|
  {
    if es == [] {
    } else {
      var init, e := es[..|es| - 1], es[|es| - 1];
      AssignedOrders(init, keepsProto);
      var out := Assigned(init, keepsProto);
      forall i | 0 <= i < |out|
        ensures if OwnLess(e.key, out[i].key) then TextLess(e.key, out[i].key) else TextLess(out[i].key, e.key)
      {
        AssignedElements(init, keepsProto, out[i]);
        AfterAll(init, e, out[i].key);
      }
      PlaceKeepsOrder(out, e, OwnLess, TextLess);
    }
  }

  lemma AfterAll<T>(init: seq<Entry<T>>, e: Entry<T>, k: string)
    requires StrictTotal(TextLess) && StrictTotal(KeyLess)
    requires InOrder(init + [e], KeyLess) && exists x :: x in init && x.key == k
    ensures if OwnLess(e.key, k) then TextLess(e.key, k) else TextLess(k, e.key)
  {
    var x :| x in init && x.key == k;
    var i :| 0 <= i < |init| && init[i] == x;
    assert (init + [e])[i].key == k && (init + [e])[|init|] == e;
    assert KeyLess(k, e.key);
  }

  lemma OrderedIsDistinct<T>(es: seq<Entry<T>>, before: Less)
    requires StrictTotal(before) && InOrder(es, before)
    ensures DistinctKeys(es)
  {
  }

  lemma HeadIsIn<T>(a: seq<T>)
    ensures a != [] ==> a[0] in a
  {
  }

  /** One order of the same entries. */
  lemma {:induction false} OrderIsUnique<T>(a: seq<Entry<T>>, b: seq<Entry<T>>, before: Less)
    requires StrictTotal(before) && InOrder(a, before) && InOrder(b, before)
    requires forall x :: x in a <==> x in b
    ensures a == b
    decreases |a|
  {
    HeadIsIn(a);
    HeadIsIn(b);
    if a == [] {
    } else {
      assert a[0] in b && b[0] in a;
      assert a == [a[0]] + a[1..] && b == [b[0]] + b[1..];
      forall x ensures x in a[1..] <==> x in b[1..] {
        if x in a[1..] { assert x in b && x != a[0]; }
        if x in b[1..] { assert x in a && x != b[0]; }
      }
      OrderIsUnique(a[1..], b[1..], before);
    }
  }

  // ---- Arranging keys, and nothing else ----

  /** The members come out in text order, none lost but those that do not land and none added. */
  lemma ArrangedIs<T(!new)>(es: seq<Entry<T>>, keepsProto: bool)
    requires DistinctKeys(es)
    ensures InOrder(Arranged(es, keepsProto), TextLess) && DistinctKeys(Arranged(es, keepsProto))
    ensures forall x :: x in Arranged(es, keepsProto) <==> x in es && Lands(x.key, keepsProto)
  {
    KeyLessIsStrictTotal();
    TextLessIsStrictTotal();
    SortByOrders(es, KeyLess);
    SortByKeeps(es, KeyLess);
    AssignedOrders(SortBy(es, KeyLess), keepsProto);
    OrderedIsDistinct(Arranged(es, keepsProto), TextLess);
    forall x ensures x in Arranged(es, keepsProto) <==> x in es && Lands(x.key, keepsProto) {
      AssignedElements(SortBy(es, KeyLess), keepsProto, x);
    }
  }

  /** Two lists of members come out the same exactly when they match. */
  lemma ArrangedIff<T(!new)>(xs: seq<Entry<T>>, ys: seq<Entry<T>>, keepsProto: bool, same: (int, int) -> bool)
    requires DistinctKeys(xs) && DistinctKeys(ys)
    requires forall i, j :: 0 <= i < |xs| && 0 <= j < |ys| ==> (same(i, j) <==> xs[i] == ys[j])
    ensures Arranged(xs, keepsProto) == Arranged(ys, keepsProto) <==> Matched(xs, ys, keepsProto, same)
  {
    ArrangedIs(xs, keepsProto);
    ArrangedIs(ys, keepsProto);
    var p, q := Arranged(xs, keepsProto), Arranged(ys, keepsProto);
    if p == q {
      forall i | 0 <= i < |xs| && Lands(xs[i].key, keepsProto) ensures exists j :: 0 <= j < |ys| && same(i, j) {
        assert xs[i] in q;
        var j :| 0 <= j < |ys| && ys[j] == xs[i];
        assert same(i, j);
      }
      forall j | 0 <= j < |ys| && Lands(ys[j].key, keepsProto) ensures exists i :: 0 <= i < |xs| && same(i, j) {
        assert ys[j] in p;
        var i :| 0 <= i < |xs| && ys[j] == xs[i];
        assert same(i, j);
      }
    }
    if Matched(xs, ys, keepsProto, same) {
      TextLessIsStrictTotal();
      OrderIsUnique(p, q, TextLess);
    }
  }

  lemma MatchedByKeys<S, T>(fs: seq<Entry<S>>, gs: seq<Entry<S>>, xs: seq<Entry<T>>, ys: seq<Entry<T>>,
                            keepsProto: bool, same: (int, int) -> bool)
    requires |fs| == |xs| && forall i :: 0 <= i < |fs| ==> fs[i].key == xs[i].key
    requires |gs| == |ys| && forall i :: 0 <= i < |gs| ==> gs[i].key == ys[i].key
    ensures Matched(fs, gs, keepsProto, same) <==> Matched(xs, ys, keepsProto, same)
  {
  }

  lemma MatchedVia<S, T>(fs: seq<Entry<S>>, gs: seq<Entry<T>>, keepsProto: bool, same: (int, int) -> bool,
                         to: int -> int, from: int -> int)
    requires forall i :: 0 <= i < |fs| ==> 0 <= to(i) < |gs| && same(i, to(i))
    requires forall j :: 0 <= j < |gs| ==> 0 <= from(j) < |fs| && same(from(j), j)
    ensures Matched(fs, gs, keepsProto, same)
  {
    forall i | 0 <= i < |fs| && Lands(fs[i].key, keepsProto) ensures exists j :: 0 <= j < |gs| && same(i, j) {
      assert same(i, to(i));
    }
    forall j | 0 <= j < |gs| && Lands(gs[j].key, keepsProto) ensures exists i :: 0 <= i < |fs| && same(i, j) {
      assert same(from(j), j);
    }
  }

  /** What comes out matches what went in. */
  lemma ArrangedMatches<S, T(!new)>(r: seq<Entry<T>>, xs: seq<Entry<T>>, fs: seq<Entry<S>>, keepsProto: bool,
                                    same: (int, int) -> bool)
    requires |fs| == |xs| && forall i :: 0 <= i < |fs| ==> fs[i].key == xs[i].key
    requires forall x :: x in r <==> x in xs && Lands(x.key, keepsProto)
    requires forall k, i :: 0 <= k < |r| && 0 <= i < |xs| && r[k] == xs[i] ==> same(k, i)
    ensures Matched(r, fs, keepsProto, same)
  {
    forall k | 0 <= k < |r| && Lands(r[k].key, keepsProto) ensures exists i :: 0 <= i < |fs| && same(k, i) {
      assert r[k] in r;
      var i :| 0 <= i < |xs| && xs[i] == r[k];
      assert same(k, i);
    }
    forall i | 0 <= i < |fs| && Lands(fs[i].key, keepsProto) ensures exists k :: 0 <= k < |r| && same(k, i) {
      assert xs[i] in r;
      var k :| 0 <= k < |r| && xs[i] == r[k];
      assert same(k, i);
    }
  }

  /** Arranging moves whole members, so it does not matter whether a value is sorted before or after. */
  lemma SortedInPlace(fs: seq<Entry<Json>>, keepsProto: bool)
    requires DistinctKeys(fs)
    ensures Sorted(Obj(fs), keepsProto) == Obj(SortedValues(Arranged(fs, keepsProto), keepsProto))
  {
    var xs, q := SortedValues(fs, keepsProto), Arranged(fs, keepsProto);
    var r := SortedValues(q, keepsProto);
    ArrangedIs(fs, keepsProto);
    ArrangedIs(xs, keepsProto);
    MappedElements(fs, q, xs, r, keepsProto);
    TextLessIsStrictTotal();
    OrderIsUnique(Arranged(xs, keepsProto), r, TextLess);
  }

  lemma MappedElements<S(!new), T(!new)>(fs: seq<Entry<S>>, q: seq<Entry<S>>, xs: seq<Entry<T>>, r: seq<Entry<T>>,
                                         keepsProto: bool)
    requires |fs| == |xs| && (forall i :: 0 <= i < |fs| ==> fs[i].key == xs[i].key)
    requires |q| == |r| && (forall k :: 0 <= k < |q| ==> q[k].key == r[k].key)
    requires forall i, k :: 0 <= i < |fs| && 0 <= k < |q| && fs[i] == q[k] ==> xs[i] == r[k]
    requires forall x :: x in q <==> x in fs && Lands(x.key, keepsProto)
    ensures forall x :: x in r <==> x in xs && Lands(x.key, keepsProto)
  {
    forall k | 0 <= k < |r| ensures r[k] in xs && Lands(r[k].key, keepsProto) {
      assert q[k] in q;
      var i :| 0 <= i < |fs| && fs[i] == q[k];
      assert xs[i] == r[k];
    }
    forall i | 0 <= i < |xs| && Lands(xs[i].key, keepsProto) ensures xs[i] in r {
      assert fs[i] in q;
      var k :| 0 <= k < |q| && q[k] == fs[i];
      assert r[k] == xs[i];
    }
  }

  // ---- Equal texts ----

  /** Two values sort to the same value exactly when they are equal up to key order. */
  lemma {:induction false} SortedIffSame(a: Json, b: Json, keepsProto: bool)
    requires Valid(a) && Valid(b)
    ensures Sorted(a, keepsProto) == Sorted(b, keepsProto) <==> Same(a, b, keepsProto)
    decreases a
  {
    if a.Arr? && b.Arr? {
      forall i | 0 <= i < |a.items| && i < |b.items|
        ensures Sorted(a.items[i], keepsProto) == Sorted(b.items[i], keepsProto)
           <==> Same(a.items[i], b.items[i], keepsProto)
      {
        SortedIffSame(a.items[i], b.items[i], keepsProto);
      }
      ItemsIffSame(a.items, b.items, keepsProto);
    } else if a.Obj? && b.Obj? {
      var xs, ys := SortedValues(a.fields, keepsProto), SortedValues(b.fields, keepsProto);
      var same := SameMember(a.fields, b.fields, keepsProto);
      forall i, j | 0 <= i < |xs| && 0 <= j < |ys| ensures same(i, j) <==> xs[i] == ys[j] {
        SortedIffSame(a.fields[i].value, b.fields[j].value, keepsProto);
      }
      ArrangedIff(xs, ys, keepsProto, same);
      MatchedByKeys(a.fields, b.fields, xs, ys, keepsProto, same);
    }
  }

  lemma ItemsIffSame(a: seq<Json>, b: seq<Json>, keepsProto: bool)
    requires forall i :: 0 <= i < |a| && i < |b| ==>
               (Sorted(a[i], keepsProto) == Sorted(b[i], keepsProto) <==> Same(a[i], b[i], keepsProto))
    ensures Sorted(Arr(a), keepsProto) == Sorted(Arr(b), keepsProto) <==> Same(Arr(a), Arr(b), keepsProto)
  {
    var x, y := SortedItems(a, keepsProto), SortedItems(b, keepsProto);
    if |a| == |b| && Same(Arr(a), Arr(b), keepsProto) {
      assert forall i :: 0 <= i < |a| ==> x[i] == y[i];
    }
    if x == y {
      forall i | 0 <= i < |a| ensures Same(a[i], b[i], keepsProto) { assert x[i] == y[i]; }
    }
  }

  lemma {:induction false} SameIsReflexive(v: Json, keepsProto: bool)
    ensures Same(v, v, keepsProto)
    decreases v
  {
    match v
    case Arr(items) =>
      forall i | 0 <= i < |items| ensures Same(items[i], items[i], keepsProto) {
        SameIsReflexive(items[i], keepsProto);
      }
    case Obj(fs) =>
      var same, id := SameMember(fs, fs, keepsProto), (i: int) => i;
      forall i | 0 <= i < |fs| ensures same(i, id(i)) { SameIsReflexive(fs[i].value, keepsProto); }
      MatchedVia(fs, fs, keepsProto, same, id, id);
    case _ =>
  }

  /** Objects with the same members in any order are the same. */
  lemma ReorderedIsSame(a: seq<Entry<Json>>, b: seq<Entry<Json>>, keepsProto: bool, to: int -> int, from: int -> int)
    requires forall i :: 0 <= i < |a| ==> 0 <= to(i) < |b| && b[to(i)] == a[i]
    requires forall j :: 0 <= j < |b| ==> 0 <= from(j) < |a| && a[from(j)] == b[j]
    ensures Same(Obj(a), Obj(b), keepsProto)
  {
    var same := SameMember(a, b, keepsProto);
    forall i | 0 <= i < |a| ensures 0 <= to(i) < |b| && same(i, to(i)) { SameIsReflexive(a[i].value, keepsProto); }
    forall j | 0 <= j < |b| ensures 0 <= from(j) < |a| && same(from(j), j) { SameIsReflexive(b[j].value, keepsProto); }
    MatchedVia(a, b, keepsProto, same, to, from);
  }

  lemma {:induction false} SortedIsValid(v: Json, keepsProto: bool)
    requires Valid(v)
    ensures Valid(Sorted(v, keepsProto))
    decreases v
  {
    match v
    case Arr(items) => forall i | 0 <= i < |items| { SortedIsValid(items[i], keepsProto); }
    case Obj(fs) =>
      var xs := SortedValues(fs, keepsProto);
      forall i | 0 <= i < |xs| ensures Valid(xs[i].value) { SortedIsValid(fs[i].value, keepsProto); }
      ArrangedIs(xs, keepsProto);
      AllValid(xs, Arranged(xs, keepsProto));
    case _ =>
  }

  lemma AllValid(xs: seq<Entry<Json>>, r: seq<Entry<Json>>)
    requires (forall i :: 0 <= i < |xs| ==> Valid(xs[i].value)) && (forall x :: x in r ==> x in xs)
    ensures forall k :: 0 <= k < |r| ==> Valid(r[k].value)
  {
    forall k | 0 <= k < |r| ensures Valid(r[k].value) {
      assert r[k] in r;
      var i :| 0 <= i < |xs| && xs[i] == r[k];
    }
  }

  /** Sorting changes a value in nothing but key order. */
  lemma {:induction false} SortedIsSame(v: Json, keepsProto: bool)
    requires Valid(v)
    ensures Same(Sorted(v, keepsProto), v, keepsProto)
    decreases v
  {
    match v
    case Arr(items) =>
      forall i | 0 <= i < |items| ensures Same(Sorted(items[i], keepsProto), items[i], keepsProto) {
        SortedIsSame(items[i], keepsProto);
      }
    case Obj(fs) =>
      var xs := SortedValues(fs, keepsProto);
      var r := Arranged(xs, keepsProto);
      var same := SameMember(r, fs, keepsProto);
      forall k, i | 0 <= k < |r| && 0 <= i < |xs| && r[k] == xs[i] ensures same(k, i) {
        SortedIsSame(fs[i].value, keepsProto);
      }
      ArrangedIs(xs, keepsProto);
      ArrangedMatches(r, xs, fs, keepsProto, same);
    case _ =>
  }

  lemma SortedIsIdempotent(v: Json, keepsProto: bool)
    requires Valid(v)
    ensures Sorted(Sorted(v, keepsProto), keepsProto) == Sorted(v, keepsProto)
  {
    SortedIsValid(v, keepsProto);
    SortedIsSame(v, keepsProto);
    SortedIffSame(Sorted(v, keepsProto), v, keepsProto);
  }

  /** Equal texts mean equal values up to key order, and the other way round. */
  lemma TextIffSame(a: Json, b: Json, keepsProto: bool)
    requires Valid(a) && Valid(b)
    ensures Print(Sorted(a, keepsProto)) == Print(Sorted(b, keepsProto)) <==> Same(a, b, keepsProto)
  {
    SortedIffSame(a, b, keepsProto);
    SortedIsValid(a, keepsProto);
    SortedIsValid(b, keepsProto);
    if Print(Sorted(a, keepsProto)) == Print(Sorted(b, keepsProto)) {
      PrintIsInjective(Sorted(a, keepsProto), Sorted(b, keepsProto));
    }
  }

  /** Signing bytes identify a value up to key order, and up to members named "__proto__". */
  lemma SigningTextIff(a: Json, b: Json)
    requires Valid(a) && Valid(b)
    ensures SigningText(a) == SigningText(b) <==> Same(a, b, false)
  {
    TextIffSame(a, b, false);
  }

  /** No object inside v has a member named "__proto__". */
  ghost predicate NoProto(v: Json) {
    match v
    case Arr(items) => forall i :: 0 <= i < |items| ==> NoProto(items[i])
    case Obj(fs) => forall i :: 0 <= i < |fs| ==> fs[i].key != "__proto__" && NoProto(fs[i].value)
    case _ => true
  }

  lemma {:induction false} NoProtoSame(a: Json, b: Json)
    requires NoProto(a) && NoProto(b)
    ensures Same(a, b, false) <==> Same(a, b, true)
    decreases a
  {
    if a.Arr? && b.Arr? && |a.items| == |b.items| {
      forall i | 0 <= i < |a.items|
        ensures Same(a.items[i], b.items[i], false) <==> Same(a.items[i], b.items[i], true)
      {
        NoProtoSame(a.items[i], b.items[i]);
      }
    } else if a.Obj? && b.Obj? {
      var p, q := SameMember(a.fields, b.fields, false), SameMember(a.fields, b.fields, true);
      forall i, j | 0 <= i < |a.fields| && 0 <= j < |b.fields| ensures p(i, j) <==> q(i, j) {
        NoProtoSame(a.fields[i].value, b.fields[j].value);
      }
      MatchedLike(a.fields, b.fields, p, q);
    }
  }

  lemma MatchedLike<T>(fs: seq<Entry<T>>, gs: seq<Entry<T>>, p: (int, int) -> bool, q: (int, int) -> bool)
    requires forall i :: 0 <= i < |fs| ==> fs[i].key != "__proto__"
    requires forall i :: 0 <= i < |gs| ==> gs[i].key != "__proto__"
    requires forall i, j :: 0 <= i < |fs| && 0 <= j < |gs| ==> (p(i, j) <==> q(i, j))
    ensures Matched(fs, gs, false, p) <==> Matched(fs, gs, true, q)
  {
  }

  /** Without "__proto__" members they identify the value up to key order. */
  lemma SigningTextIffSame(a: Json, b: Json)
    requires Valid(a) && Valid(b) && NoProto(a) && NoProto(b)
    ensures SigningText(a) == SigningText(b) <==> Same(a, b, true)
  {
    SigningTextIff(a, b);
    NoProtoSame(a, b);
  }

  /** With one they need not: two different values, the same bytes. */
  lemma ProtoIsLost(v: Json)
    requires Valid(v)
    ensures SigningText(Obj([Entry("__proto__", v)])) == SigningText(Obj([]))
    ensures !Same(Obj([Entry("__proto__", v)]), Obj([]), true)
  {
    SigningTextIff(Obj([Entry("__proto__", v)]), Obj([]));
    assert Lands(Obj([Entry("__proto__", v)]).fields[0].key, true);
  }
}
