/** Base-62 identifiers minted from random bytes. */
module Ids {

  const DIGITS := "0123456789"
  const UPPER := "ABCDEFGHIJKLMNOPQRSTUVWXYZ"
  const LOWER := "abcdefghijklmnopqrstuvwxyz"
  const BASE62 := DIGITS + UPPER + LOWER

  type Byte = b: int | 0 <= b < 256

  function Pow(b: nat, e: nat): (r: nat)
    ensures b > 0 ==> r > 0
  {
    if e == 0 then 1 else b * Pow(b, e - 1)
  }

  /** The big-endian value of the bytes. */
  function BigEndian(bytes: seq<Byte>): nat {
    if bytes == [] then 0 else BigEndian(bytes[..|bytes| - 1]) * 256 + bytes[|bytes| - 1]
  }

  /** A character's place in the alphabet, written without the alphabet. */
  function DigitValue(c: char): int {
    if '0' <= c <= '9' then c as int - '0' as int
    else if 'A' <= c <= 'Z' then c as int - 'A' as int + 10
    else if 'a' <= c <= 'z' then c as int - 'a' as int + 36
    else -1
  }

  predicate IsDigit(c: char) { 0 <= DigitValue(c) < 62 }

  predicate AllDigits(s: string) { forall k :: 0 <= k < |s| ==> IsDigit(s[k]) }

  /** The number that base-62 digits write. */
  function Value(s: string): int {
    if s == "" then 0 else Value(s[..|s| - 1]) * 62 + DigitValue(s[|s| - 1])
  }

  lemma AlphabetIsOrdered(d: nat)
    requires d < 62
    ensures |BASE62| == 62 && DigitValue(BASE62[d]) == d
  {
    if d < 10 {
      assert BASE62[d] == DIGITS[d];
    } else if d < 36 {
      assert BASE62[d] == UPPER[d - 10];
      UpperAt(d - 10);
    } else {
      assert BASE62[d] == LOWER[d - 36];
      LowerAt(d - 36);
    }
  }

  lemma UpperAt(k: nat)
    requires k < 26
    ensures UPPER[k] as int == 'A' as int + k
  {
  }

  lemma LowerAt(k: nat)
    requires k < 26
    ensures LOWER[k] as int == 'a' as int + k
  {
  }

  lemma {:induction false} ValuePrepend(c: char, s: string)
    ensures Value([c] + s) == DigitValue(c) * Pow(62, |s|) + Value(s)
    decreases |s|
  {
    if s == "" {
      assert [c] + s == [c];
      assert [c][..0] == "";
    } else {
      var less := s[..|s| - 1];
      ValuePrepend(c, less);
      assert ([c] + s)[..|[c] + s| - 1] == [c] + less;
      Distribute(DigitValue(c), Pow(62, |less|), Value(less));
    }
  }

  lemma Distribute(d: int, p: int, v: int)
    ensures (d * p + v) * 62 == d * (62 * p) + v * 62
  {
  }

  /** Taking one more digit off n. */
  lemma TakeDigit(n: nat, p: nat)
    requires p > 0
    ensures n % (62 * p) == ((n / p) % 62) * p + n % p
    ensures n / (62 * p) == n / p / 62
  {
    var q, r := n / p, n % p;
    assert n == q * p + r;
    var qq, qr := q / 62, q % 62;
    assert q == qq * 62 + qr;
    assert n == qq * (62 * p) + (qr * p + r) by { Expand(qq, qr, p, r); }
    assert 0 <= qr * p + r < 62 * p by { Below(qr, r, p); }
    DivModUnique(n, 62 * p, qq, qr * p + r);
  }

  lemma Expand(qq: nat, qr: nat, p: nat, r: nat)
    ensures (qq * 62 + qr) * p + r == qq * (62 * p) + (qr * p + r)
  {
  }

  lemma Below(qr: nat, r: nat, p: nat)
    requires qr <= 61 && r < p
    ensures 0 <= qr * p + r < 62 * p
  {
    assert qr * p <= 61 * p;
  }

  lemma DivModUnique(n: nat, m: nat, q: nat, r: nat)
    requires m > 0 && r < m && n == q * m + r
    ensures n / m == q && n % m == r
  {
    var d := n / m - q;
    assert d * m == r - n % m by { assert n == (n / m) * m + n % m; Difference(n / m, q, m); }
    MultipleIsFar(d, m);
  }

  lemma MultipleIsFar(d: int, m: int)
    requires m > 0
    ensures d >= 1 ==> d * m >= m
    ensures d <= -1 ==> d * m <= 0 - m
  {
  }

  lemma Difference(a: int, b: int, m: int)
    ensures (a - b) * m == a * m - b * m
  {
  }

  /** The digit loop, shared in meaning by auth.ts and chat-store.ts. */
  ghost predicate IsIdOf(out: string, bytes: seq<Byte>, len: nat) {
    |out| == len && AllDigits(out) && Value(out) == BigEndian(bytes) % Pow(62, len)
  }

  method Base62FromBytes(bytes: seq<Byte>, len: nat) returns (out: string)
    ensures IsIdOf(out, bytes, len)
  {
    var n: nat := 0;
    for i := 0 to |bytes|
      invariant n == BigEndian(bytes[..i])
    {
      n := n * 256 + bytes[i];
      assert bytes[..i + 1][..i] == bytes[..i];
    }
    assert bytes[..|bytes|] == bytes;
    out := "";
    ghost var all := n;
    for i := 0 to len
      invariant n == all / Pow(62, i)
      invariant IsIdOf(out, bytes, i)
    {
      TakeDigit(all, Pow(62, i));
      AlphabetIsOrdered(n % 62);
      ValuePrepend(BASE62[n % 62], out);
      out := [BASE62[n % 62]] + out;
      n := n / 62;
    }
  }

  /** mintChatId repeats both loops inline, over 16 bytes and 22 digits. */
  method MintChatId(bytes: seq<Byte>) returns (id: string)
    requires |bytes| == 16
    ensures exists out :: id == "chat_" + out && IsIdOf(out, bytes, 22)
  {
    var n: nat := 0;
    for i := 0 to |bytes|
      invariant n == BigEndian(bytes[..i])
    {
      n := n * 256 + bytes[i];
      assert bytes[..i + 1][..i] == bytes[..i];
    }
    assert bytes[..|bytes|] == bytes;
    var out := "";
    ghost var all := n;
    for i := 0 to 22
      invariant n == all / Pow(62, i)
      invariant IsIdOf(out, bytes, i)
    {
      TakeDigit(all, Pow(62, i));
      AlphabetIsOrdered(n % 62);
      ValuePrepend(BASE62[n % 62], out);
      out := [BASE62[n % 62]] + out;
      n := n / 62;
    }
    id := "chat_" + out;
  }

  lemma {:induction false} ValueBounds(s: string)
    requires AllDigits(s)
    ensures 0 <= Value(s) < Pow(62, |s|)
    decreases |s|
  {
    if s == "" {
    } else {
      ValueBounds(s[..|s| - 1]);
    }
  }

  lemma DigitIsInjective(c: char, d: char)
    requires IsDigit(c) && DigitValue(c) == DigitValue(d)
    ensures c == d
  {
  }

  /** Digits of one length write each number once. */
  lemma {:induction false} ValueIsInjective(s: string, t: string)
    requires AllDigits(s) && AllDigits(t) && |s| == |t| && Value(s) == Value(t)
    ensures s == t
    decreases |s|
  {
    if s == "" {
    } else {
      var n := |s| - 1;
      DivModUnique(Value(s), 62, Value(s[..n]), DigitValue(s[n])) by { ValueBounds(s[..n]); ValueBounds(s); }
      DivModUnique(Value(t), 62, Value(t[..n]), DigitValue(t[n])) by { ValueBounds(t[..n]); ValueBounds(t); }
      ValueIsInjective(s[..n], t[..n]);
      DigitIsInjective(s[n], t[n]);
      assert s == s[..n] + [s[n]] && t == t[..n] + [t[n]];
    }
  }

  lemma {:induction false} BigEndianBounds(bytes: seq<Byte>)
    ensures BigEndian(bytes) < Pow(256, |bytes|)
    decreases |bytes|
  {
    if bytes == [] {
    } else {
      BigEndianBounds(bytes[..|bytes| - 1]);
    }
  }

  lemma {:induction false} BigEndianIsInjective(a: seq<Byte>, b: seq<Byte>)
    requires |a| == |b| && BigEndian(a) == BigEndian(b)
    ensures a == b
    decreases |a|
  {
    if a == [] {
    } else {
      var n := |a| - 1;
      DivModUnique(BigEndian(a), 256, BigEndian(a[..n]), a[n]);
      DivModUnique(BigEndian(b), 256, BigEndian(b[..n]), b[n]);
      BigEndianIsInjective(a[..n], b[..n]);
      assert a == a[..n] + [a[n]] && b == b[..n] + [b[n]];
    }
  }

  /** The id is determined by the bytes, and determines them whenever the bytes fit in the digits. */
  lemma IdsDetermineBytes(a: seq<Byte>, b: seq<Byte>, s: string, t: string, len: nat)
    requires |a| == |b| && Pow(256, |a|) <= Pow(62, len)
    requires IsIdOf(s, a, len) && IsIdOf(t, b, len)
    ensures s == t <==> a == b
  {
    BigEndianBounds(a);
    BigEndianBounds(b);
    DivModUnique(BigEndian(a), Pow(62, len), 0, BigEndian(a));
    DivModUnique(BigEndian(b), Pow(62, len), 0, BigEndian(b));
    if s == t { BigEndianIsInjective(a, b); }
    if a == b { ValueIsInjective(s, t); }
  }

  function BytesOf(v: nat, n: nat): (r: seq<Byte>)
    ensures |r| == n
  {
    if n == 0 then [] else BytesOf(v / 256, n - 1) + [v % 256]
  }

  lemma {:induction false} BytesOfValue(v: nat, n: nat)
    requires v < Pow(256, n)
    ensures BigEndian(BytesOf(v, n)) == v
    decreases n
  {
    if n == 0 {
    } else {
      BytesOfValue(v / 256, n - 1);
      assert BytesOf(v, n)[..n - 1] == BytesOf(v / 256, n - 1);
    }
  }

  function Zeros(len: nat): string { if len == 0 then "" else Zeros(len - 1) + "0" }

  lemma {:induction false} ZerosAreZero(len: nat)
    ensures |Zeros(len)| == len && AllDigits(Zeros(len)) && Value(Zeros(len)) == 0
    decreases len
  {
    if len == 0 {
    } else {
      ZerosAreZero(len - 1);
      assert Zeros(len)[..len - 1] == Zeros(len - 1);
    }
  }

  ghost predicate DistinctIds(n: nat, len: nat) {
    forall a: seq<Byte>, b: seq<Byte>, s: string ::
      |a| == n && |b| == n && IsIdOf(s, a, len) && IsIdOf(s, b, len) ==> a == b
  }

  /** Different byte strings of one length get different ids exactly when they fit in the digits. */
  lemma DistinctIdsIff(n: nat, len: nat)
    ensures DistinctIds(n, len) <==> Pow(256, n) <= Pow(62, len)
  {
    if Pow(256, n) <= Pow(62, len) {
      forall a: seq<Byte>, b: seq<Byte>, s: string
        | |a| == n && |b| == n && IsIdOf(s, a, len) && IsIdOf(s, b, len) ensures a == b
      {
        IdsDetermineBytes(a, b, s, s, len);
      }
    } else {
      var m := Pow(62, len);
      var a, b := BytesOf(0, n), BytesOf(m, n);
      BytesOfValue(0, n);
      BytesOfValue(m, n);
      ZerosAreZero(len);
      DivModUnique(m, m, 1, 0);
      assert IsIdOf(Zeros(len), a, len) && IsIdOf(Zeros(len), b, len);
    }
  }

  lemma {:induction false} PowAdd(b: nat, m: nat, n: nat)
    ensures Pow(b, m + n) == Pow(b, m) * Pow(b, n)
    decreases m
  {
    if m == 0 {
    } else {
      PowAdd(b, m - 1, n);
      MulIsAssociative(b, Pow(b, m - 1), Pow(b, n));
    }
  }

  lemma MulIsAssociative(a: int, b: int, c: int)
    ensures a * (b * c) == (a * b) * c
  {
  }

  /** 16 bytes fit in 22 digits, so minted ids of different bytes differ. */
  lemma SixteenBytesFit()
    ensures Pow(256, 16) <= Pow(62, 22)
  {
    PowAdd(256, 8, 8);
    PowAdd(256, 4, 4);
    PowAdd(62, 11, 11);
    PowAdd(62, 8, 3);
    PowAdd(62, 4, 4);
    assert Pow(256, 4) == 4294967296;
    assert Pow(62, 4) == 14776336 && Pow(62, 3) == 238328;
    assert Pow(256, 8) == 18446744073709551616;
    assert Pow(62, 8) == 218340105584896;
    assert Pow(62, 11) == 52036560683837093888;
    SquareMonotone(Pow(256, 8), Pow(62, 11));
  }

  lemma SquareMonotone(a: nat, b: nat)
    requires a <= b
    ensures a * a <= b * b
  {
    assert a * a <= a * b;
    assert a * b <= b * b;
  }

  lemma MintedIdsDetermineBytes(a: seq<Byte>, b: seq<Byte>, s: string, t: string)
    requires |a| == |b| == 16 && IsIdOf(s, a, 22) && IsIdOf(t, b, 22)
    ensures s == t <==> a == b
  {
    SixteenBytesFit();
    IdsDetermineBytes(a, b, s, t, 22);
  }
}
