/** JSON values and the text that JSON.stringify prints for them. */
module Json {
  import opened Options

  /** A named member; also used for members that are already printed. */
  datatype Entry<T> = Entry(key: string, value: T)

  /** An object is its own keys in order. A number is the decimal text JavaScript prints for it. */
  datatype Json =
    | Null
    | Bool(b: bool)
    | Num(text: string)
    | Str(s: string)
    | Arr(items: seq<Json>)
    | Obj(fields: seq<Entry<Json>>)

  predicate NumChar(c: char) { '0' <= c <= '9' || c in "+-.eE" }

  predicate IsNumText(t: string) { t != "" && forall k :: 0 <= k < |t| ==> NumChar(t[k]) }

  predicate DistinctKeys<T>(fs: seq<Entry<T>>) {
    forall i, j :: 0 <= i < j < |fs| ==> fs[i].key != fs[j].key
  }

  predicate Valid(v: Json) {
    match v
    case Num(t) => IsNumText(t)
    case Arr(items) => forall i :: 0 <= i < |items| ==> Valid(items[i])
    case Obj(fs) => DistinctKeys(fs) && forall i :: 0 <= i < |fs| ==> Valid(fs[i].value)
    case _ => true
  }

  function HexDigit(d: int): char
    requires 0 <= d < 16
  {
    if d < 10 then '0' + d as char else 'a' + (d - 10) as char
  }

  function Escape(c: char): (r: string)
    ensures r != "" && r[0] != '"'
  {
    if c == '"' then "\\\""
    else if c == '\\' then "\\\\"
    else if c as int == 8 then "\\b"
    else if c == '\t' then "\\t"
    else if c == '\n' then "\\n"
    else if c as int == 12 then "\\f"
    else if c == '\r' then "\\r"
    else if c as int < 32 then "\\u00" + [HexDigit(c as int / 16), HexDigit(c as int % 16)]
    else [c]
  }

  function Escaped(s: string): string {
    if s == "" then "" else Escape(s[0]) + Escaped(s[1..])
  }

  function Quote(s: string): string { "\"" + Escaped(s) + "\"" }

  function Print(v: Json): string
    decreases v, 1
  {
    match v
    case Null => "null"
    case Bool(b) => if b then "true" else "false"
    case Num(t) => t
    case Str(s) => Quote(s)
    case Arr(items) => if items == [] then "[]" else "[" + Print(items[0]) + PrintItems(items[1..])
    case Obj(fs) => Braced(PrintValues(fs))
  }

  /** The rest of an array's text. */
  function PrintItems(items: seq<Json>): string
    decreases items, 0
  {
    if items == [] then "]" else "," + Print(items[0]) + PrintItems(items[1..])
  }

  function PrintValues(fs: seq<Entry<Json>>): (r: seq<Entry<string>>)
    ensures |r| == |fs| && forall i :: 0 <= i < |fs| ==> r[i].key == fs[i].key
    decreases fs, 0
  {
    if fs == [] then [] else [Entry(fs[0].key, Print(fs[0].value))] + PrintValues(fs[1..])
  }

  function Braced(ms: seq<Entry<string>>): string {
    if ms == [] then "{}" else "{" + Member(ms[0]) + Members(ms[1..])
  }

  function Member(m: Entry<string>): string { Quote(m.key) + ":" + m.value }

  function Members(ms: seq<Entry<string>>): string {
    if ms == [] then "}" else "," + Member(ms[0]) + Members(ms[1..])
  }

  // ---- Reading a text back: section 7 (strings) and sections 3 to 6 of RFC 8259, without white space ----

  function HexValue(c: char): int {
    if '0' <= c <= '9' then c as int - '0' as int
    else if 'a' <= c <= 'f' then c as int - 'a' as int + 10
    else if 'A' <= c <= 'F' then c as int - 'A' as int + 10
    else -1
  }

  /** The four hexadecimal digits of a \u escape; surrogate halves are not characters here. */
  function Hex4(s: string): (r: Option<char>)
    requires |s| == 4
  {
    if exists k :: 0 <= k < 4 && HexValue(s[k]) < 0 then None
    else
      var n := HexValue(s[0]) * 4096 + HexValue(s[1]) * 256 + HexValue(s[2]) * 16 + HexValue(s[3]);
      if 0xD800 <= n < 0xE000 then None else Some(n as char)
  }

  function Meaning(c: char): Option<char> {
    if c in "\"\\/" then Some(c)
    else if c == 'b' then Some(8 as char)
    else if c == 'f' then Some(12 as char)
    else if c == 'n' then Some('\n')
    else if c == 'r' then Some('\r')
    else if c == 't' then Some('\t')
    else None
  }

  /** One character of a string, and what follows it. */
  function ReadChar(s: string): (r: Option<(char, string)>)
    ensures r.Some? ==> |r.value.1| < |s|
  {
    if s == "" || s[0] == '"' || s[0] as int < 32 then None
    else if s[0] != '\\' then Some((s[0], s[1..]))
    else if |s| >= 6 && s[1] == 'u' then
      var c := Hex4(s[2..6]);
      if c.None? then None else Some((c.value, s[6..]))
    else if |s| >= 2 && Meaning(s[1]).Some? then Some((Meaning(s[1]).value, s[2..]))
    else None
  }

  /** The rest of a string after its opening quote, and what follows the closing one. */
  function ReadChars(s: string): (r: Option<(string, string)>)
    ensures r.Some? ==> |r.value.1| < |s|
    decreases |s|
  {
    if s == "" then None
    else if s[0] == '"' then Some(("", s[1..]))
    else
      var c := ReadChar(s);
      if c.None? then None
      else
        var cs := ReadChars(c.value.1);
        if cs.None? then None else Some(([c.value.0] + cs.value.0, cs.value.1))
  }

  /** The length of the number text that s begins with. */
  function NumLength(s: string): (n: nat)
    ensures n <= |s|
  {
    if s == "" || !NumChar(s[0]) then 0 else 1 + NumLength(s[1..])
  }

  predicate Begins(s: string, word: string) { |word| <= |s| && s[..|word|] == word }

  /** A value, and what follows it. */
  function ReadValue(s: string): (r: Option<(Json, string)>)
    ensures r.Some? ==> |r.value.1| < |s|
    decreases |s|, 1
  {
    if s == "" then None
    else if NumChar(s[0]) then Some((Num(s[..NumLength(s)]), s[NumLength(s)..]))
    else if s[0] == '"' then
      var cs := ReadChars(s[1..]);
      if cs.None? then None else Some((Str(cs.value.0), cs.value.1))
    else if s[0] == '[' then ReadArray(s[1..])
    else if s[0] == '{' then ReadObject(s[1..])
    else if Begins(s, "null") then Some((Null, s[4..]))
    else if Begins(s, "true") then Some((Bool(true), s[4..]))
    else if Begins(s, "false") then Some((Bool(false), s[5..]))
    else None
  }

  function ReadArray(s: string): (r: Option<(Json, string)>)
    ensures r.Some? ==> |r.value.1| <= |s|
    decreases |s|, 3
  {
    if s != "" && s[0] == ']' then Some((Arr([]), s[1..]))
    else
      var items := ReadItems(s);
      if items.None? then None else Some((Arr(items.value.0), items.value.1))
  }

  function ReadItems(s: string): (r: Option<(seq<Json>, string)>)
    ensures r.Some? ==> |r.value.1| <= |s|
    decreases |s|, 2
  {
    var item := ReadValue(s);
    if item.None? || item.value.1 == "" then None
    else if item.value.1[0] == ']' then Some(([item.value.0], item.value.1[1..]))
    else if item.value.1[0] != ',' then None
    else
      var rest := ReadItems(item.value.1[1..]);
      if rest.None? then None else Some(([item.value.0] + rest.value.0, rest.value.1))
  }

  function ReadObject(s: string): (r: Option<(Json, string)>)
    ensures r.Some? ==> |r.value.1| <= |s|
    decreases |s|, 4
  {
    if s != "" && s[0] == '}' then Some((Obj([]), s[1..]))
    else
      var fields := ReadMembers(s);
      if fields.None? then None else Some((Obj(fields.value.0), fields.value.1))
  }

  function ReadMember(s: string): (r: Option<(Entry<Json>, string)>)
    ensures r.Some? ==> |r.value.1| < |s|
    decreases |s|, 2
  {
    if s == "" || s[0] != '"' then None
    else
      var key := ReadChars(s[1..]);
      if key.None? || key.value.1 == "" || key.value.1[0] != ':' then None
      else
        var v := ReadValue(key.value.1[1..]);
        if v.None? then None else Some((Entry(key.value.0, v.value.0), v.value.1))
  }

  function ReadMembers(s: string): (r: Option<(seq<Entry<Json>>, string)>)
    ensures r.Some? ==> |r.value.1| <= |s|
    decreases |s|, 3
  {
    var m := ReadMember(s);
    if m.None? || m.value.1 == "" then None
    else if m.value.1[0] == '}' then Some(([m.value.0], m.value.1[1..]))
    else if m.value.1[0] != ',' then None
    else
      var rest := ReadMembers(m.value.1[1..]);
      if rest.None? then None else Some(([m.value.0] + rest.value.0, rest.value.1))
  }

  // ---- A printed value reads back as itself ----

  /** What may follow a value: the end, or the next character of an array or object. */
  predicate Delimited(s: string) { s == "" || s[0] in ",]}" }

  lemma HexRoundTrip(d: int)
    requires 0 <= d < 16
    ensures HexValue(HexDigit(d)) == d
  {
  }

  lemma ReadEscape(c: char, x: string)
    ensures ReadChar(Escape(c) + x) == Some((c, x))
  {
    var e := Escape(c);
    var s := e + x;
    assert s[0] == e[0] && s[|e|..] == x;
    if |e| == 6 {
      HexRoundTrip(c as int / 16);
      HexRoundTrip(c as int % 16);
      assert s[1] == 'u' && s[2..6] == ['0', '0', HexDigit(c as int / 16), HexDigit(c as int % 16)];
    } else if |e| == 2 {
      assert s[1] == e[1];
    }
  }

  /** No upper-case hexadecimal digit in an escape. */
  predicate LowerCase(t: string) { t != "" && t[0] == '\\' ==> forall k :: 0 <= k < |t| ==> !('A' <= t[k] <= 'F') }

  lemma CharShapes(c: char, t: string)
    requires ReadChar(t) == Some((c, ""))
    ensures |t| == 1 || |t| == 2 || |t| == 6
    ensures |t| == 1 ==> t[0] == c && c != '"' && c != '\\' && c as int >= 32
    ensures |t| > 1 ==> t[0] == '\\'
    ensures |t| == 2 ==> Meaning(t[1]) == Some(c)
    ensures |t| == 6 ==> t[1] == 'u' && Hex4(t[2..6]) == Some(c)
  {
  }

  lemma LowerHexIs(x: char)
    requires HexValue(x) >= 0 && !('A' <= x <= 'F')
    ensures HexValue(x) < 16 && x == HexDigit(HexValue(x))
  {
  }

  lemma LowHexIs(t: string, c: char)
    requires |t| == 4 && Hex4(t) == Some(c) && c as int < 32
    requires forall k :: 0 <= k < 4 ==> !('A' <= t[k] <= 'F')
    ensures t == "00" + [HexDigit(c as int / 16), HexDigit(c as int % 16)]
  {
    forall k | 0 <= k < 4 ensures 0 <= HexValue(t[k]) < 16 && t[k] == HexDigit(HexValue(t[k])) { LowerHexIs(t[k]); }
    var n := HexValue(t[0]) * 4096 + HexValue(t[1]) * 256 + HexValue(t[2]) * 16 + HexValue(t[3]);
    assert n == c as int;
    assert HexValue(t[0]) == 0 && HexValue(t[1]) == 0;
  }

  /** Of all texts that read as a character its escape is the shortest; in lower case, the only one of its length. */
  lemma EscapeIsShortest(c: char, t: string)
    requires ReadChar(t) == Some((c, ""))
    ensures ReadChar(Escape(c)) == Some((c, ""))
    ensures |Escape(c)| <= |t|
    ensures |Escape(c)| == |t| && LowerCase(t) ==> t == Escape(c)
  {
    ReadEscape(c, "");
    assert Escape(c) + "" == Escape(c);
    CharShapes(c, t);
    if |t| == 6 && |Escape(c)| == 6 && LowerCase(t) {
      LowHexIs(t[2..6], c);
      assert t == [t[0], t[1]] + t[2..6];
    }
  }

  function EscapedText(s: string, x: string): (r: string)
    ensures r != ""
  {
    Escaped(s) + ("\"" + x)
  }

  lemma EscapedTextStep(s: string, x: string)
    ensures EscapedText(s, x) == if s == "" then "\"" + x else Escape(s[0]) + EscapedText(s[1..], x)
    ensures EscapedText(s, x)[0] == '"' <==> s == ""
  {
    if s != "" { Regroup(Escape(s[0]), Escaped(s[1..]), "\"" + x); }
  }

  lemma Regroup(a: string, b: string, x: string)
    ensures (a + b) + x == a + (b + x)
  {
  }

  lemma {:induction false} ReadEscaped(s: string, x: string)
    ensures ReadChars(EscapedText(s, x)) == Some((s, x))
    decreases |s|
  {
    EscapedTextStep(s, x);
    if s != "" {
      ReadEscape(s[0], EscapedText(s[1..], x));
      ReadEscaped(s[1..], x);
      assert s == [s[0]] + s[1..];
    } else {
      assert ("\"" + x)[1..] == x;
    }
  }

  lemma QuoteText(s: string, x: string)
    ensures Quote(s) + x == "\"" + EscapedText(s, x)
  {
  }

  lemma {:induction false} NumLengthIs(a: string, x: string)
    requires (forall k :: 0 <= k < |a| ==> NumChar(a[k])) && Delimited(x)
    ensures NumLength(a + x) == |a|
    decreases |a|
  {
    if a == "" {
      assert a + x == x;
    } else {
      assert (a + x)[1..] == a[1..] + x;
      NumLengthIs(a[1..], x);
    }
  }

  lemma PrintStarts(v: Json)
    requires Valid(v)
    ensures Print(v) != "" && Print(v)[0] !in ",]}"
  {
  }

  lemma StartsWith(p: string, x: string)
    requires p != ""
    ensures (p + x)[0] == p[0] && (p + x)[..|p|] == p && (p + x)[|p|..] == x
  {
  }

  lemma {:induction false} ReadPrint(v: Json, x: string)
    requires Valid(v) && Delimited(x)
    ensures ReadValue(Print(v) + x) == Some((v, x))
    decreases v, 1
  {
    match v
    case Null => StartsWith("null", x);
    case Bool(b) => StartsWith(Print(v), x);
    case Num(t) =>
      NumLengthIs(t, x);
      StartsWith(t, x);
    case Str(s) =>
      QuoteText(s, x);
      ReadEscaped(s, x);
      StartsWith("\"", EscapedText(s, x));
    case Arr(items) => ReadPrintArray(items, x);
    case Obj(fs) => ReadPrintObject(fs, x);
  }

  /** The first item and all that follows it. */
  function ItemText(items: seq<Json>, x: string): string
    requires items != []
  {
    Print(items[0]) + (PrintItems(items[1..]) + x)
  }

  lemma ArrText(items: seq<Json>, x: string)
    ensures Print(Arr(items)) + x == "[" + if items == [] then "]" + x else ItemText(items, x)
  {
  }

  lemma ItemsText(items: seq<Json>, x: string)
    ensures PrintItems(items) + x == if items == [] then "]" + x else "," + ItemText(items, x)
    ensures Delimited(PrintItems(items) + x)
  {
  }

  lemma {:induction false} ReadPrintArray(items: seq<Json>, x: string)
    requires Valid(Arr(items)) && Delimited(x)
    ensures ReadValue(Print(Arr(items)) + x) == Some((Arr(items), x))
    decreases items, 3
  {
    ArrText(items, x);
    if items == [] {
      StartsWith("[", "]" + x);
      StartsWith("]", x);
    } else {
      StartsWith("[", ItemText(items, x));
      PrintStarts(items[0]);
      StartsWith(Print(items[0]), PrintItems(items[1..]) + x);
      ReadPrintItems(items, x);
    }
  }

  lemma {:induction false} ReadPrintItems(items: seq<Json>, x: string)
    requires Valid(Arr(items)) && Delimited(x) && items != []
    ensures ReadItems(ItemText(items, x)) == Some((items, x))
    decreases items, 2
  {
    var rest := PrintItems(items[1..]) + x;
    ItemsText(items[1..], x);
    ReadPrint(items[0], rest);
    if items[1..] == [] {
      LastItem(ItemText(items, x), items[0], x);
    } else {
      ReadPrintItems(items[1..], x);
      NextItem(ItemText(items, x), items[0], ItemText(items[1..], x));
    }
    HeadAndTail(items);
    assert [items[0]] + [] == [items[0]];
  }

  lemma LastItem(s: string, v: Json, x: string)
    requires ReadValue(s) == Some((v, "]" + x))
    ensures ReadItems(s) == Some(([v], x))
  {
    StartsWith("]", x);
  }

  lemma NextItem(s: string, v: Json, t: string)
    requires ReadValue(s) == Some((v, "," + t)) && ReadItems(t).Some?
    ensures ReadItems(s) == Some(([v] + ReadItems(t).value.0, ReadItems(t).value.1))
  {
    StartsWith(",", t);
  }

  lemma ObjText(fs: seq<Entry<Json>>, x: string)
    ensures Print(Obj(fs)) + x == "{" + if fs == [] then "}" + x else MemberText(fs, x)
  {
    ValuesStep(fs);
    if fs != [] { Reassociate(Quote(fs[0].key), Print(fs[0].value), Members(PrintValues(fs[1..])), x); }
  }

  /** The first member and all that follows it. */
  function MemberText(fs: seq<Entry<Json>>, x: string): string
    requires fs != []
  {
    Quote(fs[0].key) + (":" + (Print(fs[0].value) + (Members(PrintValues(fs[1..])) + x)))
  }

  lemma MembersText(fs: seq<Entry<Json>>, x: string)
    ensures Members(PrintValues(fs)) + x == if fs == [] then "}" + x else "," + MemberText(fs, x)
    ensures Delimited(Members(PrintValues(fs)) + x)
  {
    ValuesStep(fs);
    if fs != [] { Reassociate(Quote(fs[0].key), Print(fs[0].value), Members(PrintValues(fs[1..])), x); }
  }

  lemma ValuesStep(fs: seq<Entry<Json>>)
    ensures fs == [] ==> PrintValues(fs) == []
    ensures fs != [] ==>
              && PrintValues(fs)[0] == Entry(fs[0].key, Print(fs[0].value))
              && PrintValues(fs)[1..] == PrintValues(fs[1..])
  {
  }

  lemma Reassociate(k: string, v: string, rest: string, x: string)
    ensures ("," + (k + ":" + v) + rest) + x == "," + (k + (":" + (v + (rest + x))))
    ensures ("{" + (k + ":" + v) + rest) + x == "{" + (k + (":" + (v + (rest + x))))
  {
  }

  lemma {:induction false} ReadPrintObject(fs: seq<Entry<Json>>, x: string)
    requires Valid(Obj(fs)) && Delimited(x)
    ensures ReadValue(Print(Obj(fs)) + x) == Some((Obj(fs), x))
    decreases fs, 4
  {
    ObjText(fs, x);
    if fs == [] {
      StartsWith("{", "}" + x);
      StartsWith("}", x);
    } else {
      StartsWith("{", MemberText(fs, x));
      MemberTextStarts(fs, x);
      ReadPrintMembers(fs, x);
    }
  }

  lemma MemberTextStarts(fs: seq<Entry<Json>>, x: string)
    requires fs != []
    ensures MemberText(fs, x) != "" && MemberText(fs, x)[0] == '"'
  {
  }

  lemma TailIsValid(fs: seq<Entry<Json>>)
    requires fs != [] && Valid(Obj(fs))
    ensures Valid(fs[0].value) && Valid(Obj(fs[1..]))
  {
  }

  lemma {:induction false} ReadPrintMembers(fs: seq<Entry<Json>>, x: string)
    requires Valid(Obj(fs)) && Delimited(x) && fs != []
    ensures ReadMembers(MemberText(fs, x)) == Some((fs, x))
    decreases fs, 3
  {
    var s := MemberText(fs, x);
    TailIsValid(fs);
    MembersText(fs[1..], x);
    ReadPrintMember(fs[0], Members(PrintValues(fs[1..])) + x);
    if fs[1..] == [] {
      LastMember(s, fs[0], x);
    } else {
      ReadPrintMembers(fs[1..], x);
      NextMember(s, fs[0], MemberText(fs[1..], x));
    }
    HeadAndTail(fs);
    assert [fs[0]] + [] == [fs[0]];
  }

  lemma HeadAndTail<T>(a: seq<T>)
    requires a != []
    ensures a == [a[0]] + a[1..]
  {
  }

  lemma LastMember(s: string, e: Entry<Json>, x: string)
    requires ReadMember(s) == Some((e, "}" + x))
    ensures ReadMembers(s) == Some(([e], x))
  {
    StartsWith("}", x);
  }

  lemma NextMember(s: string, e: Entry<Json>, t: string)
    requires ReadMember(s) == Some((e, "," + t)) && ReadMembers(t).Some?
    ensures ReadMembers(s) == Some(([e] + ReadMembers(t).value.0, ReadMembers(t).value.1))
  {
    StartsWith(",", t);
  }

  lemma {:induction false} ReadPrintMember(e: Entry<Json>, rest: string)
    requires Valid(e.value) && Delimited(rest)
    ensures ReadMember(Quote(e.key) + (":" + (Print(e.value) + rest))) == Some((e, rest))
    decreases e, 2
  {
    var v := Print(e.value) + rest;
    QuoteText(e.key, ":" + v);
    StartsWith("\"", EscapedText(e.key, ":" + v));
    ReadEscaped(e.key, ":" + v);
    StartsWith(":", v);
    ReadPrint(e.value, rest);
  }

  /** JSON.parse, of text without white space. */
  function Parse(s: string): Option<Json> {
    var r := ReadValue(s);
    if r.Some? && r.value.1 == "" then Some(r.value.0) else None
  }

  /** JSON text reads back as the value it was printed from. */
  lemma PrintRoundTrip(v: Json)
    requires Valid(v)
    ensures Parse(Print(v)) == Some(v)
  {
    assert Print(v) + "" == Print(v);
    ReadPrint(v, "");
  }

  /** So JSON.stringify is injective, key order included. */
  lemma PrintIsInjective(a: Json, b: Json)
    requires Valid(a) && Valid(b) && Print(a) == Print(b)
    ensures a == b
  {
    PrintRoundTrip(a);
    PrintRoundTrip(b);
  }

  lemma Drop(p: string, x: string, y: string)
    requires p + x == p + y
    ensures x == y
  {
    assert x == (p + x)[|p|..] && y == (p + y)[|p|..];
  }

  // ---- Printed text has no control character ----

  predicate NoControl(s: string) { forall k :: 0 <= k < |s| ==> s[k] as int >= 32 }

  lemma {:induction false} EscapedNoControl(s: string)
    ensures NoControl(Escaped(s))
    decreases |s|
  {
    if s == "" {
    } else {
      EscapedNoControl(s[1..]);
      assert NoControl(Escape(s[0]));
    }
  }

  lemma {:induction false} PrintNoControl(v: Json)
    requires Valid(v)
    ensures NoControl(Print(v))
    decreases v, 1
  {
    match v
    case Str(s) => EscapedNoControl(s);
    case Arr(items) => if items != [] { PrintNoControl(items[0]); ItemsNoControl(items[1..]); }
    case Obj(fs) =>
      ValuesNoControl(fs);
      BracedNoControl(PrintValues(fs));
    case _ =>
  }

  lemma {:induction false} ItemsNoControl(items: seq<Json>)
    requires Valid(Arr(items))
    ensures NoControl(PrintItems(items))
    decreases items, 0
  {
    if items == [] {
    } else {
      PrintNoControl(items[0]);
      ItemsNoControl(items[1..]);
    }
  }

  lemma {:induction false} ValuesNoControl(fs: seq<Entry<Json>>)
    requires Valid(Obj(fs))
    ensures forall i :: 0 <= i < |fs| ==> NoControl(PrintValues(fs)[i].value)
    decreases fs, 0
  {
    if fs == [] {
    } else {
      PrintNoControl(fs[0].value);
      ValuesNoControl(fs[1..]);
    }
  }

  lemma {:induction false} MembersNoControl(ms: seq<Entry<string>>)
    requires forall i :: 0 <= i < |ms| ==> NoControl(ms[i].value)
    ensures NoControl(Members(ms))
    decreases |ms|
  {
    if ms == [] {
    } else {
      EscapedNoControl(ms[0].key);
      MembersNoControl(ms[1..]);
    }
  }

  lemma BracedNoControl(ms: seq<Entry<string>>)
    requires forall i :: 0 <= i < |ms| ==> NoControl(ms[i].value)
    ensures NoControl(Braced(ms))
  {
    if ms != [] { EscapedNoControl(ms[0].key); MembersNoControl(ms[1..]); }
  }
}
