/** Base64 text: section 4 of RFC 4648 with padding, section 5 without. */
module Base64 {
  import opened Options
  import opened Ids

  function Digit(d: int, url: bool): char
    requires 0 <= d < 64
  {
    if d < 26 then 'A' + d as char
    else if d < 52 then 'a' + (d - 26) as char
    else if d < 62 then '0' + (d - 52) as char
    else if d == 62 then (if url then '-' else '+')
    else (if url then '_' else '/')
  }

  /** The value of a character, or -1. */
  function SextetOf(c: char, url: bool): int {
    if 'A' <= c <= 'Z' then c as int - 'A' as int
    else if 'a' <= c <= 'z' then c as int - 'a' as int + 26
    else if '0' <= c <= '9' then c as int - '0' as int + 52
    else if c == (if url then '-' else '+') then 62
    else if c == (if url then '_' else '/') then 63
    else -1
  }

  type Sextet = d: int | 0 <= d < 64

  function Group(a: Byte, b: Byte, c: Byte): (r: seq<Sextet>)
    ensures |r| == 4
  {
    [a / 4, a % 4 * 16 + b / 16, b % 16 * 4 + c / 64, c % 64]
  }

  function Ungroup(p: Sextet, q: Sextet, r: Sextet, s: Sextet): (b: seq<Byte>)
    ensures |b| == 3
  {
    [p as int * 4 + q / 16, q as int % 16 * 16 + r / 4, r as int % 4 * 64 + s]
  }

  function Sextets(bs: seq<Byte>): seq<Sextet> {
    if |bs| == 0 then []
    else if |bs| == 1 then Group(bs[0], 0, 0)[..2]
    else if |bs| == 2 then Group(bs[0], bs[1], 0)[..3]
    else Group(bs[0], bs[1], bs[2]) + Sextets(bs[3..])
  }

  /** Whole bytes only: bits left over at the end are dropped. */
  function Octets(ss: seq<Sextet>): seq<Byte> {
    if |ss| < 2 then []
    else if |ss| == 2 then Ungroup(ss[0], ss[1], 0, 0)[..1]
    else if |ss| == 3 then Ungroup(ss[0], ss[1], ss[2], 0)[..2]
    else Ungroup(ss[0], ss[1], ss[2], ss[3]) + Octets(ss[4..])
  }

  function Digits(ss: seq<Sextet>, url: bool): (r: string)
    ensures |r| == |ss| && forall k :: 0 <= k < |ss| ==> r[k] == Digit(ss[k], url)
  {
    if ss == [] then "" else [Digit(ss[0], url)] + Digits(ss[1..], url)
  }

  /** The characters outside the alphabet are skipped. */
  function DigitValues(s: string, url: bool): seq<Sextet> {
    if s == "" then []
    else if SextetOf(s[0], url) < 0 then DigitValues(s[1..], url)
    else [SextetOf(s[0], url)] + DigitValues(s[1..], url)
  }

  function UrlText(bs: seq<Byte>): string { Digits(Sextets(bs), true) }

  function FromUrlText(s: string): seq<Byte> { Octets(DigitValues(s, true)) }

  function Padding(n: nat): string { if n % 3 == 0 then "" else if n % 3 == 1 then "==" else "=" }

  function Binary(bs: seq<Byte>): (r: string)
    ensures |r| == |bs| && forall k :: 0 <= k < |bs| ==> r[k] == bs[k] as char
  {
    if bs == [] then "" else [bs[0] as char] + Binary(bs[1..])
  }

  function Codes(s: string): (r: seq<Byte>)
    requires forall k :: 0 <= k < |s| ==> s[k] as int < 256
    ensures |r| == |s| && forall k :: 0 <= k < |s| ==> r[k] == s[k] as int
  {
    if s == "" then [] else [s[0] as int] + Codes(s[1..])
  }

  function Btoa(binary: string): string
    requires forall k :: 0 <= k < |binary| ==> binary[k] as int < 256
  {
    Digits(Sextets(Codes(binary)), false) + Padding(|binary|)
  }

  function WithoutSpace(s: string): string {
    if s == "" then ""
    else if s[0] in " \t\n\r" || s[0] as int == 12 then WithoutSpace(s[1..])
    else [s[0]] + WithoutSpace(s[1..])
  }

  /** One or two padding characters are dropped, where the length is a multiple of four. */
  function Unpadded(s: string): string {
    if |s| == 0 || |s| % 4 != 0 || s[|s| - 1] != '=' then s
    else if s[|s| - 2] == '=' then s[..|s| - 2]
    else s[..|s| - 1]
  }

  /** None where atob throws. */
  function Atob(s: string): Option<string> {
    var t := Unpadded(WithoutSpace(s));
    if |t| % 4 == 1 || exists k :: 0 <= k < |t| && SextetOf(t[k], false) < 0 then None
    else Some(Binary(Octets(DigitValues(t, false))))
  }

  // ---- Round trips ----

  lemma UngroupOfGroup(a: Byte, b: Byte, c: Byte)
    ensures var g := Group(a, b, c); Ungroup(g[0], g[1], g[2], g[3]) == [a, b, c]
    ensures c == 0 ==> Group(a, b, c)[3] == 0
    ensures b == c == 0 ==> Group(a, b, c)[2] == 0
  {
    Split(a % 4, b / 16, 16);
    Split(b % 16, c / 64, 4);
    assert a == a / 4 * 4 + a % 4 && b == b / 16 * 16 + b % 16 && c == c / 64 * 64 + c % 64;
  }

  lemma Split(hi: nat, lo: nat, m: nat)
    requires lo < m
    ensures (hi * m + lo) / m == hi && (hi * m + lo) % m == lo
  {
    DivModUnique(hi * m + lo, m, hi, lo);
  }

  lemma {:induction false} OctetsOfSextets(bs: seq<Byte>)
    ensures Octets(Sextets(bs)) == bs
    decreases |bs|
  {
    if |bs| == 1 { UngroupOfGroup(bs[0], 0, 0); }
    if |bs| == 2 { UngroupOfGroup(bs[0], bs[1], 0); }
    if |bs| >= 3 {
      OctetsOfSextets(bs[3..]);
      UngroupOfGroup(bs[0], bs[1], bs[2]);
      assert Sextets(bs)[4..] == Sextets(bs[3..]);
    }
  }

  lemma {:induction false} DigitValuesOfDigits(ss: seq<Sextet>, url: bool)
    ensures DigitValues(Digits(ss, url), url) == ss
    decreases |ss|
  {
    if ss == [] {
    } else {
      var s := Digits(ss, url);
      assert s[0] == Digit(ss[0], url) && s[1..] == Digits(ss[1..], url);
      SextetOfDigit(ss[0], url);
      DigitValuesOfDigits(ss[1..], url);
    }
  }

  lemma SextetOfDigit(d: Sextet, url: bool)
    ensures SextetOf(Digit(d, url), url) == d
  {
  }

  lemma UrlRoundTrip(bs: seq<Byte>)
    ensures FromUrlText(UrlText(bs)) == bs
  {
    DigitValuesOfDigits(Sextets(bs), true);
    OctetsOfSextets(bs);
  }

  /** URL-safe text has no dot and nothing but the section 5 alphabet. */
  lemma UrlTextAlphabet(bs: seq<Byte>)
    ensures forall k :: 0 <= k < |UrlText(bs)| ==> SextetOf(UrlText(bs)[k], true) >= 0 && UrlText(bs)[k] != '.'
  {
    DigitsAreDigits(Sextets(bs), true);
  }

  lemma {:induction false} SextetCount(bs: seq<Byte>, q: nat, r: nat)
    requires |bs| == 3 * q + r && r < 3
    ensures |Sextets(bs)| == 4 * q + (if r == 0 then 0 else r + 1)
    decreases q
  {
    if q == 0 {
    } else {
      SextetCount(bs[3..], q - 1, r);
    }
  }

  lemma {:induction false} NoSpaceToDrop(s: string)
    requires forall k :: 0 <= k < |s| ==> s[k] == '=' || SextetOf(s[k], false) >= 0
    ensures WithoutSpace(s) == s
    decreases |s|
  {
    if s == "" {
    } else {
      NoSpaceToDrop(s[1..]);
    }
  }

  /** The padding that a text of n digits takes. */
  predicate Pads(n: nat, pad: string) {
    (n % 4 == 0 && pad == "") || (n % 4 == 2 && pad == "==") || (n % 4 == 3 && pad == "=")
  }

  lemma PaddingComesOff(t: string, pad: string)
    requires forall k :: 0 <= k < |t| ==> t[k] != '='
    requires Pads(|t|, pad)
    ensures Unpadded(t + pad) == t
  {
    assert (t + pad)[..|t|] == t;
  }

  lemma DigitsAreDigits(ss: seq<Sextet>, url: bool)
    ensures forall k :: 0 <= k < |ss| ==> Digits(ss, url)[k] != '=' && SextetOf(Digits(ss, url)[k], url) >= 0
  {
    forall k | 0 <= k < |ss| ensures SextetOf(Digits(ss, url)[k], url) >= 0 { SextetOfDigit(ss[k], url); }
  }

  lemma AtobOfBtoa(binary: string)
    requires forall k :: 0 <= k < |binary| ==> binary[k] as int < 256
    ensures Atob(Btoa(binary)) == Some(binary)
  {
    var bs := Codes(binary);
    SextetCount(bs, |bs| / 3, |bs| % 3);
    PaddingPads(|bs| / 3, |bs| % 3);
    AtobOfDigits(Sextets(bs), Padding(|binary|));
    OctetsOfSextets(bs);
    assert Binary(bs) == binary;
  }

  lemma PaddingPads(q: nat, r: nat)
    requires r < 3
    ensures Pads(4 * q + (if r == 0 then 0 else r + 1), Padding(3 * q + r))
  {
    Split(q, if r == 0 then 0 else r + 1, 4);
    Split(q, r, 3);
  }

  lemma AtobOfDigits(ss: seq<Sextet>, pad: string)
    requires Pads(|ss|, pad)
    ensures Atob(Digits(ss, false) + pad) == Some(Binary(Octets(ss)))
  {
    DigitsAreDigits(ss, false);
    DigitValuesOfDigits(ss, false);
    AtobUnpads(Digits(ss, false), pad);
  }

  lemma AtobUnpads(t: string, pad: string)
    requires Pads(|t|, pad) && forall k :: 0 <= k < |t| ==> t[k] != '=' && SextetOf(t[k], false) >= 0
    ensures Atob(t + pad) == Some(Binary(Octets(DigitValues(t, false))))
  {
    NoSpaceToDrop(t + pad);
    PaddingComesOff(t, pad);
  }

  // ---- The helpers ----

  function ReplaceAll(s: string, from: char, to: char): (r: string)
    ensures |r| == |s| && forall k :: 0 <= k < |s| ==> r[k] == if s[k] == from then to else s[k]
  {
    if s == "" then "" else [if s[0] == from then to else s[0]] + ReplaceAll(s[1..], from, to)
  }

  /** replace(/=+$/, "") */
  function WithoutPadding(s: string): string
    decreases |s|
  {
    if s == "" || s[|s| - 1] != '=' then s else WithoutPadding(s[..|s| - 1])
  }

  /** The text decodes to the same bytes. */
  method BytesToBase64(bytes: seq<Byte>) returns (text: string)
    ensures text == Digits(Sextets(bytes), false) + Padding(|bytes|)
    ensures Atob(text) == Some(Binary(bytes))
  {
    var binary := "";
    var i := 0;
    while i < |bytes|
      invariant 0 <= i <= |bytes| && |binary| == i
      invariant forall k :: 0 <= k < i ==> binary[k] == bytes[k] as char
    {
      binary := binary + [bytes[i] as char];
      i := i + 1;
    }
    assert Codes(binary) == bytes && Binary(bytes) == binary;
    text := Btoa(binary);
    AtobOfBtoa(binary);
  }

  /** The URL-safe text of section 5, unpadded. */
  method BytesToBase64Url(bytes: seq<Byte>) returns (text: string)
    ensures text == UrlText(bytes) && FromUrlText(text) == bytes
  {
    var standard := BytesToBase64(bytes);
    text := WithoutPadding(ReplaceAll(ReplaceAll(standard, '+', '-'), '/', '_'));
    UrlFromStandard(Sextets(bytes), |bytes|);
    UrlRoundTrip(bytes);
  }

  lemma UrlFromStandard(ss: seq<Sextet>, n: nat)
    ensures var standard := Digits(ss, false) + Padding(n);
            WithoutPadding(ReplaceAll(ReplaceAll(standard, '+', '-'), '/', '_')) == Digits(ss, true)
  {
    UrlDigits(ss, Padding(n));
    DigitsAreDigits(ss, true);
    PaddingStripped(Digits(ss, true), n);
  }

  function UrlChar(c: char): char { if c == '+' then '-' else if c == '/' then '_' else c }

  lemma UrlDigits(ss: seq<Sextet>, pad: string)
    requires forall k :: 0 <= k < |pad| ==> pad[k] == '='
    ensures ReplaceAll(ReplaceAll(Digits(ss, false) + pad, '+', '-'), '/', '_') == Digits(ss, true) + pad
  {
    Replaced(Digits(ss, false) + pad);
    forall k | 0 <= k < |ss| ensures UrlChar(Digits(ss, false)[k]) == Digits(ss, true)[k] { UrlDigit(ss[k]); }
    var replaced := ReplaceAll(ReplaceAll(Digits(ss, false) + pad, '+', '-'), '/', '_');
    Mapped(Digits(ss, false), Digits(ss, true), pad, replaced);
  }

  lemma Mapped(t: string, u: string, pad: string, r: string)
    requires |r| == |t + pad| && |t| == |u|
    requires forall k :: 0 <= k < |r| ==> r[k] == UrlChar((t + pad)[k])
    requires forall k :: 0 <= k < |t| ==> UrlChar(t[k]) == u[k]
    requires forall k :: 0 <= k < |pad| ==> pad[k] == '='
    ensures r == u + pad
  {
  }

  lemma Replaced(s: string)
    ensures var r := ReplaceAll(ReplaceAll(s, '+', '-'), '/', '_');
            |r| == |s| && forall k :: 0 <= k < |s| ==> r[k] == UrlChar(s[k])
  {
    var t := ReplaceAll(s, '+', '-');
    var r := ReplaceAll(t, '/', '_');
    forall k | 0 <= k < |s| ensures r[k] == UrlChar(s[k]) {
      assert t[k] == if s[k] == '+' then '-' else s[k];
    }
  }

  lemma UrlDigit(d: Sextet)
    ensures Digit(d, true) == UrlChar(Digit(d, false))
  {
  }

  lemma PaddingStripped(t: string, n: nat)
    requires forall k :: 0 <= k < |t| ==> t[k] != '='
    ensures WithoutPadding(t + Padding(n)) == t
  {
    assert (t + "=")[..|t|] == t && (t + "==")[..|t| + 1] == t + "=";
    assert WithoutPadding(t + "=") == WithoutPadding(t) == t;
  }

  /** What BytesToBase64 encoded comes back; text that is no base64 is refused. */
  method Base64ToBytes(b64: string) returns (bytes: Option<seq<Byte>>)
    ensures bytes.None? <==> Atob(b64).None?
    ensures bytes.Some? ==> Atob(b64) == Some(Binary(bytes.value))
  {
    var binary := Atob(b64);
    if binary.None? { return None; }
    AtobIsBinary(b64);
    var out: seq<Byte> := [];
    var i := 0;
    while i < |binary.value|
      invariant 0 <= i <= |binary.value| && |out| == i
      invariant forall k :: 0 <= k < i ==> out[k] == binary.value[k] as int
    {
      out := out + [binary.value[i] as int];
      i := i + 1;
    }
    assert Binary(out) == binary.value;
    bytes := Some(out);
  }

  lemma AtobIsBinary(s: string)
    requires Atob(s).Some?
    ensures forall k :: 0 <= k < |Atob(s).value| ==> Atob(s).value[k] as int < 256
  {
  }
}
