/** Guest tokens: a signed, dated body, minted by the server and presented as a bearer header. */
module GuestToken {
  import opened Options
  import opened Ids
  import opened Base64
  import opened Json
  import opened CanonicalJson

  datatype Payload = Payload(guestId: string, issuedAt: int, expiresAt: int)

  /** Library calls the tokens go through; HMAC is any function of secret and text. */
  datatype Lib = Lib(hmac: (string, string) -> seq<Byte>, utf8: string -> seq<Byte>, fromUtf8: seq<Byte> -> string)

  /** All that is used of them. */
  ghost predicate Lawful(l: Lib) { forall s :: l.fromUtf8(l.utf8(s)) == s }

  // ---- Numbers ----

  function DecimalText(n: nat): string {
    if n < 10 then ['0' + n as char] else DecimalText(n / 10) + ['0' + (n % 10) as char]
  }

  function NumberText(n: int): string { if n < 0 then "-" + DecimalText(-n) else DecimalText(n) }

  function NumberValue(t: string): int {
    if t != "" && t[0] == '-' then -DecimalValue(t[1..]) else DecimalValue(t)
  }

  lemma {:induction false} DecimalRoundTrip(n: nat)
    ensures DecimalValue(DecimalText(n)) == n && IsNumText(DecimalText(n)) && DecimalText(n)[0] != '-'
    decreases n
  {
    var t := DecimalText(n);
    if n >= 10 {
      DecimalRoundTrip(n / 10);
      assert t[..|t| - 1] == DecimalText(n / 10) && t[0] == DecimalText(n / 10)[0];
    } else {
      assert t[..0] == "";
    }
  }

  lemma NumberRoundTrip(n: int)
    ensures NumberValue(NumberText(n)) == n && IsNumText(NumberText(n))
  {
    DecimalRoundTrip(if n < 0 then -n else n);
    if n < 0 { assert NumberText(n)[1..] == DecimalText(-n); }
  }

  // ---- Hexadecimal text ----

  function Hex(bs: seq<Byte>): string {
    if bs == [] then "" else [HexDigit(bs[0] / 16), HexDigit(bs[0] % 16)] + Hex(bs[1..])
  }

  /** Decoding stops at the first pair that is not two hexadecimal digits. */
  function HexBytes(s: string): seq<Byte> {
    if |s| < 2 || HexValue(s[0]) < 0 || HexValue(s[1]) < 0 then []
    else [HexValue(s[0]) * 16 + HexValue(s[1])] + HexBytes(s[2..])
  }

  // ---- The token ----

  function PayloadJson(p: Payload): Json {
    Obj([Entry("guestId", Str(p.guestId)), Entry("issuedAt", Num(NumberText(p.issuedAt))),
         Entry("expiresAt", Num(NumberText(p.expiresAt)))])
  }

  function Body(l: Lib, p: Payload): string { UrlText(l.utf8(Print(PayloadJson(p)))) }

  function Encode(l: Lib, secret: string, p: Payload): string {
    Body(l, p) + "." + Hex(l.hmac(secret, Body(l, p)))
  }

  function DotAt(s: string): nat
    ensures DotAt(s) <= |s|
  {
    if s == "" || s[0] == '.' then 0 else 1 + DotAt(s[1..])
  }

  /** The value of a member; of several with one key the last counts. */
  function Field(fs: seq<Entry<Json>>, key: string): Option<Json>
    decreases |fs|
  {
    if fs == [] then None
    else if fs[|fs| - 1].key == key then Some(fs[|fs| - 1].value)
    else Field(fs[..|fs| - 1], key)
  }

  function PayloadOf(v: Json): Option<Payload> {
    if !v.Obj? then None
    else
      var id, issued, expires := Field(v.fields, "guestId"), Field(v.fields, "issuedAt"), Field(v.fields, "expiresAt");
      if id.None? || !id.value.Str? || id.value.s == "" then None
      else if issued.None? || !issued.value.Num? then None
      else if expires.None? || !expires.value.Num? then None
      else Some(Payload(id.value.s, NumberValue(issued.value.text), NumberValue(expires.value.text)))
  }

  function Decode(l: Lib, secret: string, token: string): Option<Payload> {
    var dot := DotAt(token);
    if dot == |token| then None else Verified(l, secret, token[..dot], token[dot + 1..])
  }

  function Verified(l: Lib, secret: string, body: string, sig: string): Option<Payload> {
    if HexBytes(sig) != HexBytes(Hex(l.hmac(secret, body))) then None
    else
      var parsed := Parse(l.fromUtf8(FromUrlText(body)));
      if parsed.None? then None else PayloadOf(parsed.value)
  }

  // ---- The bearer header ----

  predicate IsSpace(c: char) {
    var n := c as int;
    9 <= n <= 13 || n in {0x20, 0xA0, 0x1680, 0x2028, 0x2029, 0x202F, 0x205F, 0x3000, 0xFEFF} || 0x2000 <= n <= 0x200A
  }

  predicate EndsLine(c: char) { c as int in {10, 13, 0x2028, 0x2029} }

  function TrimStart(s: string): string { if s != "" && IsSpace(s[0]) then TrimStart(s[1..]) else s }

  function TrimEnd(s: string): string
    decreases |s|
  {
    if s != "" && IsSpace(s[|s| - 1]) then TrimEnd(s[..|s| - 1]) else s
  }

  /** /^Bearer\s+(.+)$/ on the trimmed header. */
  function BearerToken(header: string): Option<string> {
    var t := TrimEnd(TrimStart(header));
    if !("Bearer" <= t) || |t| == 6 || !IsSpace(t[6]) then None
    else
      var rest := TrimStart(t[6..]);
      if rest == "" || exists k :: 0 <= k < |rest| && EndsLine(rest[k]) then None else Some(rest)
  }

  /** The guest that a request's authorization header stands for. */
  function Authenticated(l: Lib, secret: string, header: Option<string>, now: int): Option<Payload> {
    if header.None? || header.value == "" then None
    else
      var token := BearerToken(header.value);
      if token.None? then None
      else
        var p := Decode(l, secret, token.value);
        if p.None? || p.value.expiresAt < now then None else p
  }

  // ---- A minted token comes back as what was minted ----

  lemma {:induction false} HexRoundTrip(bs: seq<Byte>)
    ensures HexBytes(Hex(bs)) == bs
    decreases |bs|
  {
    if bs == [] {
    } else {
      HexRoundTrip(bs[1..]);
      HexValueOfDigit(bs[0] / 16);
      HexValueOfDigit(bs[0] % 16);
      assert Hex(bs)[2..] == Hex(bs[1..]);
    }
  }

  lemma HexValueOfDigit(d: int)
    requires 0 <= d < 16
    ensures HexValue(HexDigit(d)) == d && SextetOf(HexDigit(d), true) >= 0
  {
  }

  lemma {:induction false} HexAlphabet(bs: seq<Byte>)
    ensures forall k :: 0 <= k < |Hex(bs)| ==> SextetOf(Hex(bs)[k], true) >= 0
    decreases |bs|
  {
    if bs == [] {
    } else {
      HexValueOfDigit(bs[0] / 16);
      HexValueOfDigit(bs[0] % 16);
      HexAlphabet(bs[1..]);
    }
  }

  lemma {:induction false} FirstDot(body: string, rest: string)
    requires forall k :: 0 <= k < |body| ==> body[k] != '.'
    ensures DotAt(body + ("." + rest)) == |body|
    decreases |body|
  {
    if body == "" {
    } else {
      assert (body + ("." + rest))[1..] == body[1..] + ("." + rest);
      FirstDot(body[1..], rest);
    }
  }

  ghost predicate HasMember(fs: seq<Entry<Json>>, key: string, v: Json) {
    exists i :: 0 <= i < |fs| && fs[i] == Entry(key, v) && forall j :: i < j < |fs| ==> fs[j].key != key
  }

  lemma MemberBefore(fs: seq<Entry<Json>>, key: string, v: Json)
    requires fs != [] && fs[|fs| - 1].key != key
    ensures HasMember(fs, key, v) <==> HasMember(fs[..|fs| - 1], key, v)
  {
    var init := fs[..|fs| - 1];
    if HasMember(fs, key, v) {
      var i :| 0 <= i < |fs| && fs[i] == Entry(key, v) && forall j :: i < j < |fs| ==> fs[j].key != key;
      assert init[i] == Entry(key, v);
    }
    if HasMember(init, key, v) {
      var i :| 0 <= i < |init| && init[i] == Entry(key, v) && forall j :: i < j < |init| ==> init[j].key != key;
      assert fs[i] == Entry(key, v) && forall j :: i < j < |init| ==> fs[j].key == init[j].key;
    }
  }

  lemma {:induction false} FieldIff(fs: seq<Entry<Json>>, key: string, v: Json)
    ensures Field(fs, key) == Some(v) <==> HasMember(fs, key, v)
    decreases |fs|
  {
    if fs == [] {
    } else if fs[|fs| - 1].key == key {
      if fs[|fs| - 1].value == v { assert fs[|fs| - 1] == Entry(key, v); }
    } else {
      FieldIff(fs[..|fs| - 1], key, v);
      MemberBefore(fs, key, v);
    }
  }

  lemma PayloadRoundTrip(p: Payload)
    requires p.guestId != ""
    ensures Valid(PayloadJson(p)) && PayloadOf(PayloadJson(p)) == Some(p)
  {
    var fs := PayloadJson(p).fields;
    NumberRoundTrip(p.issuedAt);
    NumberRoundTrip(p.expiresAt);
    assert "guestId"[0] == 'g' && "issuedAt"[0] == 'i' && "expiresAt"[0] == 'e';
    FieldIff(fs, "guestId", fs[0].value);
    FieldIff(fs, "issuedAt", fs[1].value);
    FieldIff(fs, "expiresAt", fs[2].value);
  }

  lemma DecodeOfEncode(l: Lib, secret: string, p: Payload)
    requires Lawful(l) && p.guestId != ""
    ensures Decode(l, secret, Encode(l, secret, p)) == Some(p)
  {
    UrlTextAlphabet(l.utf8(Print(PayloadJson(p))));
    SplitAtDot(Body(l, p), Hex(l.hmac(secret, Body(l, p))));
    VerifiedBody(l, secret, p);
  }

  lemma SplitAtDot(body: string, sig: string)
    requires forall k :: 0 <= k < |body| ==> body[k] != '.'
    ensures var token := body + "." + sig;
            DotAt(token) == |body| < |token| && token[..|body|] == body && token[|body| + 1..] == sig
  {
    assert body + "." + sig == body + ("." + sig);
    FirstDot(body, sig);
  }

  lemma VerifiedBody(l: Lib, secret: string, p: Payload)
    requires Lawful(l) && p.guestId != ""
    ensures Verified(l, secret, Body(l, p), Hex(l.hmac(secret, Body(l, p)))) == Some(p)
  {
    UrlRoundTrip(l.utf8(Print(PayloadJson(p))));
    PayloadRoundTrip(p);
    PrintRoundTrip(PayloadJson(p));
  }

  predicate TokenText(s: string) { forall k :: 0 <= k < |s| ==> SextetOf(s[k], true) >= 0 || s[k] == '.' }

  lemma EncodeIsTokenText(l: Lib, secret: string, p: Payload)
    ensures TokenText(Encode(l, secret, p)) && Encode(l, secret, p) != ""
  {
    UrlTextAlphabet(l.utf8(Print(PayloadJson(p))));
    HexAlphabet(l.hmac(secret, Body(l, p)));
  }

  lemma BearerOfToken(token: string)
    requires TokenText(token) && token != ""
    ensures BearerToken("Bearer " + token) == Some(token)
  {
    var h := "Bearer " + token;
    assert h[0] == 'B' && h[|h| - 1] == token[|token| - 1] && !IsSpace(token[|token| - 1]) && !IsSpace(token[0]);
    assert TrimEnd(TrimStart(h)) == h;
    assert h[6..] == " " + token && (" " + token)[1..] == token;
    assert TrimStart(h[6..]) == token;
  }

  /** The header authenticates p up to and including p.expiresAt, and nobody after. */
  ghost predicate GoodUntilExpiry(l: Lib, secret: string, header: string, p: Payload) {
    forall now :: Authenticated(l, secret, Some(header), now) == if now <= p.expiresAt then Some(p) else None
  }

  lemma MintedAuthenticates(l: Lib, secret: string, p: Payload)
    requires Lawful(l) && p.guestId != ""
    ensures GoodUntilExpiry(l, secret, "Bearer " + Encode(l, secret, p), p)
  {
    EncodeIsTokenText(l, secret, p);
    BearerOfToken(Encode(l, secret, p));
    DecodeOfEncode(l, secret, p);
  }

  /** A new guest's token, given the random bytes and the clock. */
  method MintToken(l: Lib, secret: string, lifetimeSeconds: int, random: seq<Byte>, now: int)
      returns (p: Payload, token: string)
    requires |random| == 16
    ensures p.issuedAt == now && p.expiresAt == now + lifetimeSeconds * 1000
    ensures exists id :: p.guestId == "guest_" + id && IsIdOf(id, random, 22)
    ensures Lawful(l) ==> GoodUntilExpiry(l, secret, "Bearer " + token, p)
  {
    var id := Base62FromBytes(random, 22);
    p := Payload("guest_" + id, now, now + lifetimeSeconds * 1000);
    token := Encode(l, secret, p);
    if Lawful(l) { MintedAuthenticates(l, secret, p); }
  }

  // ---- Exactly who is authenticated ----

  /** The k-th pair of characters is b in hexadecimal. */
  predicate PairIs(s: string, k: nat, b: int) {
    && 2 * k + 1 < |s| && HexValue(s[2 * k]) >= 0 && HexValue(s[2 * k + 1]) >= 0
    && b == 16 * HexValue(s[2 * k]) + HexValue(s[2 * k + 1])
  }

  predicate NoPair(s: string, k: nat) {
    2 * k + 1 < |s| ==> HexValue(s[2 * k]) < 0 || HexValue(s[2 * k + 1]) < 0
  }

  /** The bytes that a text of hexadecimal pairs stands for, up to the first pair that is none. */
  ghost predicate IsHexOf(s: string, bs: seq<Byte>) {
    (forall k :: 0 <= k < |bs| ==> PairIs(s, k, bs[k])) && NoPair(s, |bs|)
  }

  lemma PairShift(s: string, k: nat, b: int)
    requires |s| >= 2
    ensures PairIs(s, k + 1, b) <==> PairIs(s[2..], k, b)
    ensures NoPair(s, k + 1) <==> NoPair(s[2..], k)
  {
    if 2 * k + 3 < |s| {
      assert s[2..][2 * k] == s[2 * (k + 1)] && s[2..][2 * k + 1] == s[2 * (k + 1) + 1];
    }
  }

  lemma HexTail(s: string, bs: seq<Byte>)
    requires |s| >= 2 && bs != []
    ensures IsHexOf(s, bs) <==> PairIs(s, 0, bs[0]) && IsHexOf(s[2..], bs[1..])
  {
    var cs := bs[1..];
    forall k | 0 <= k < |cs| ensures PairIs(s, k + 1, bs[k + 1]) <==> PairIs(s[2..], k, cs[k]) {
      PairShift(s, k, cs[k]);
    }
    PairShift(s, |cs|, 0);
    if PairIs(s, 0, bs[0]) && IsHexOf(s[2..], cs) {
      forall k | 0 <= k < |bs| ensures PairIs(s, k, bs[k]) {
        if k > 0 { assert PairIs(s[2..], k - 1, cs[k - 1]); }
      }
    }
    if IsHexOf(s, bs) {
      forall k | 0 <= k < |cs| ensures PairIs(s[2..], k, cs[k]) { assert PairIs(s, k + 1, bs[k + 1]); }
    }
  }

  lemma FirstPair(s: string, bs: seq<Byte>)
    requires IsHexOf(s, bs) && bs != []
    ensures PairIs(s, 0, bs[0])
  {
  }

  lemma {:induction false} HexBytesIff(s: string, bs: seq<Byte>)
    ensures HexBytes(s) == bs <==> IsHexOf(s, bs)
    decreases |s|
  {
    if |s| < 2 || HexValue(s[0]) < 0 || HexValue(s[1]) < 0 {
      if IsHexOf(s, bs) && bs != [] { FirstPair(s, bs); }
    } else if bs == [] {
      assert !NoPair(s, 0);
    } else {
      HexBytesIff(s[2..], bs[1..]);
      HexTail(s, bs);
      HeadAndTail(bs);
      HeadAndTail(HexBytes(s));
    }
  }

  predicate AllSpace(s: string) { forall k :: 0 <= k < |s| ==> IsSpace(s[k]) }

  /** A token that a bearer header could hold. */
  predicate IsBearer(token: string) {
    && token != "" && !IsSpace(token[0]) && !IsSpace(token[|token| - 1])
    && forall k :: 0 <= k < |token| ==> !EndsLine(token[k])
  }

  /** The header is "Bearer", white space and the token, with white space around it or not. */
  ghost predicate Carries(header: string, token: string) {
    IsBearer(token) && exists a, b, c :: IsHeader(header, token, a, b, c)
  }

  ghost predicate IsHeader(header: string, token: string, a: string, b: string, c: string) {
    AllSpace(a) && AllSpace(b) && b != "" && AllSpace(c) && header == a + (("Bearer" + (b + token)) + c)
  }

  lemma {:induction false} TrimStartIs(a: string, x: string)
    requires AllSpace(a) && (x == "" || !IsSpace(x[0]))
    ensures TrimStart(a + x) == x
    decreases |a|
  {
    if a == "" {
      assert a + x == x;
    } else {
      assert (a + x)[1..] == a[1..] + x;
      TrimStartIs(a[1..], x);
    }
  }

  lemma {:induction false} TrimEndIs(x: string, c: string)
    requires AllSpace(c) && (x == "" || !IsSpace(x[|x| - 1]))
    ensures TrimEnd(x + c) == x
    decreases |c|
  {
    if c == "" {
      assert x + c == x;
    } else {
      assert (x + c)[..|x + c| - 1] == x + c[..|c| - 1];
      TrimEndIs(x, c[..|c| - 1]);
    }
  }

  lemma {:induction false} TrimStartSplits(s: string) returns (a: string)
    ensures AllSpace(a) && s == a + TrimStart(s) && (TrimStart(s) == "" || !IsSpace(TrimStart(s)[0]))
    decreases |s|
  {
    if s == "" || !IsSpace(s[0]) {
      a := "";
    } else {
      var b := TrimStartSplits(s[1..]);
      a := [s[0]] + b;
      assert s == [s[0]] + s[1..];
    }
  }

  lemma {:induction false} TrimEndSplits(s: string) returns (c: string)
    ensures AllSpace(c) && s == TrimEnd(s) + c && (TrimEnd(s) == "" || !IsSpace(TrimEnd(s)[|TrimEnd(s)| - 1]))
    decreases |s|
  {
    if s == "" || !IsSpace(s[|s| - 1]) {
      c := "";
    } else {
      var b := TrimEndSplits(s[..|s| - 1]);
      c := b + [s[|s| - 1]];
      assert s == s[..|s| - 1] + [s[|s| - 1]];
    }
  }

  lemma BearerFound(header: string, token: string, a: string, b: string, c: string)
    requires IsBearer(token) && IsHeader(header, token, a, b, c)
    ensures BearerToken(header) == Some(token)
  {
    var x := "Bearer" + (b + token);
    assert x[0] == 'B' && x[|x| - 1] == token[|token| - 1];
    assert (x + c)[0] == 'B';
    TrimStartIs(a, x + c);
    TrimEndIs(x, c);
    assert x[..6] == "Bearer" && x[6..] == b + token && x[6] == b[0];
    TrimStartIs(b, token);
  }

  lemma BearerPrefix(t: string)
    requires "Bearer" <= t
    ensures t == "Bearer" + t[6..]
  {
  }

  lemma SuffixEnds(t: string, b: string, token: string)
    requires |t| >= 6 && t[6..] == b + token && token != ""
    ensures token[|token| - 1] == t[|t| - 1]
  {
    assert t[6..][|t| - 7] == t[|t| - 1];
  }

  lemma BearerMeans(header: string)
    requires BearerToken(header).Some?
    ensures Carries(header, BearerToken(header).value)
  {
    var u := TrimStart(header);
    var t := TrimEnd(u);
    var token := TrimStart(t[6..]);
    var a := TrimStartSplits(header);
    var c := TrimEndSplits(u);
    var b := TrimStartSplits(t[6..]);
    BearerPrefix(t);
    SuffixEnds(t, b, token);
    SpaceFirst(t[6..], b, token);
    HeaderIs(header, token, a, b, c, u, t);
  }

  lemma SpaceFirst(s: string, b: string, token: string)
    requires s == b + token && s != "" && IsSpace(s[0]) && (token == "" || !IsSpace(token[0]))
    ensures b != ""
  {
  }

  lemma HeaderIs(header: string, token: string, a: string, b: string, c: string, u: string, t: string)
    requires AllSpace(a) && AllSpace(b) && b != "" && AllSpace(c) && IsBearer(token)
    requires header == a + u && u == t + c && "Bearer" <= t && t == "Bearer" + t[6..] && t[6..] == b + token
    ensures Carries(header, token)
  {
    assert IsHeader(header, token, a, b, c);
  }

  /** The header holds a token for exactly the texts of this form. */
  lemma CarriesIff(header: string, token: string)
    ensures BearerToken(header) == Some(token) <==> Carries(header, token)
  {
    if Carries(header, token) {
      var a, b, c :| IsHeader(header, token, a, b, c);
      BearerFound(header, token, a, b, c);
    }
    if BearerToken(header) == Some(token) { BearerMeans(header); }
  }

  ghost predicate HasTime(fs: seq<Entry<Json>>, key: string, time: int) {
    exists t :: HasMember(fs, key, Num(t)) && NumberValue(t) == time
  }

  /** A JSON object with p's fields. */
  ghost predicate Names(v: Json, p: Payload) {
    && v.Obj? && p.guestId != "" && HasMember(v.fields, "guestId", Str(p.guestId))
    && HasTime(v.fields, "issuedAt", p.issuedAt) && HasTime(v.fields, "expiresAt", p.expiresAt)
  }

  lemma PayloadIff(v: Json, p: Payload)
    ensures PayloadOf(v) == Some(p) <==> Names(v, p)
  {
    if v.Obj? {
      FieldIff(v.fields, "guestId", Str(p.guestId));
      TimeIff(v.fields, "issuedAt", p.issuedAt);
      TimeIff(v.fields, "expiresAt", p.expiresAt);
    }
  }

  lemma TimeIff(fs: seq<Entry<Json>>, key: string, time: int)
    ensures HasTime(fs, key, time) <==>
              Field(fs, key).Some? && Field(fs, key).value.Num? && NumberValue(Field(fs, key).value.text) == time
  {
    if HasTime(fs, key, time) {
      var t :| HasMember(fs, key, Num(t)) && NumberValue(t) == time;
      FieldIff(fs, key, Num(t));
    }
    if Field(fs, key).Some? { FieldIff(fs, key, Field(fs, key).value); }
  }

  /** The token's body, up to its first dot, names p, and the rest is the body's HMAC in hexadecimal. */
  ghost predicate Signs(l: Lib, secret: string, p: Payload, body: string, sig: string) {
    && '.' !in body && IsHexOf(sig, l.hmac(secret, body))
    && exists v :: Parse(l.fromUtf8(FromUrlText(body))) == Some(v) && Names(v, p)
  }

  lemma {:induction false} DotIsFirst(token: string)
    ensures forall k :: 0 <= k < DotAt(token) ==> token[k] != '.'
    ensures DotAt(token) < |token| ==> token[DotAt(token)] == '.'
    decreases |token|
  {
    if token == "" || token[0] == '.' {
    } else {
      DotIsFirst(token[1..]);
      assert forall k :: 0 < k < |token| ==> token[k] == token[1..][k - 1];
    }
  }

  lemma VerifiedIff(l: Lib, secret: string, body: string, sig: string, p: Payload)
    requires '.' !in body
    ensures Verified(l, secret, body, sig) == Some(p) <==> Signs(l, secret, p, body, sig)
  {
    HexRoundTrip(l.hmac(secret, body));
    HexBytesIff(sig, l.hmac(secret, body));
    var parsed := Parse(l.fromUtf8(FromUrlText(body)));
    if parsed.Some? { PayloadIff(parsed.value, p); }
  }

  lemma DecodeIff(l: Lib, secret: string, token: string, p: Payload)
    ensures Decode(l, secret, token) == Some(p) <==>
              exists body, sig :: token == body + "." + sig && Signs(l, secret, p, body, sig)
  {
    var dot := DotAt(token);
    DotIsFirst(token);
    if dot < |token| {
      var b, s := token[..dot], token[dot + 1..];
      assert token == b + "." + s;
      VerifiedIff(l, secret, b, s, p);
    }
    forall body, sig | token == body + "." + sig && '.' !in body
      ensures dot < |token| && body == token[..dot] && sig == token[dot + 1..]
    {
      SplitAtDot(body, sig);
    }
  }

  /** For every header, secret and time: a request is authenticated as p exactly when its header carries a token whose
      body, up to the first dot, names p, whose rest is that body's HMAC, and p has not expired. */
  lemma AuthenticatedIff(l: Lib, secret: string, header: string, now: int, p: Payload)
    ensures Authenticated(l, secret, Some(header), now) == Some(p) <==>
              && now <= p.expiresAt
              && exists body, sig :: Carries(header, body + "." + sig) && Signs(l, secret, p, body, sig)
  {
    var found := BearerToken(header);
    if found.Some? { DecodeIff(l, secret, found.value, p); }
    forall token ensures found == Some(token) <==> Carries(header, token) { CarriesIff(header, token); }
    assert BearerToken("") == None;
  }

  /** A token whose signature is not its body's HMAC authenticates nobody, at any time. */
  lemma WrongSignatureIsNobody(l: Lib, secret: string, header: string, body: string, sig: string, now: int)
    requires Carries(header, body + "." + sig) && '.' !in body && !IsHexOf(sig, l.hmac(secret, body))
    ensures Authenticated(l, secret, Some(header), now) == None
  {
    var r := Authenticated(l, secret, Some(header), now);
    if r.Some? {
      AuthenticatedIff(l, secret, header, now, r.value);
      var b, g :| Carries(header, b + "." + g) && Signs(l, secret, r.value, b, g);
      CarriesIff(header, b + "." + g);
      CarriesIff(header, body + "." + sig);
      SplitAtDot(b, g);
      SplitAtDot(body, sig);
    }
  }
}
