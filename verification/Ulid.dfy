// Monotonic ULID generation: the carry loop over 80 bits of entropy, the
// slicing of 128 bits into 26 base-32 symbols, and the order of whole runs.
module Ulid {
  import opened Common

  // ---- Bytes and numbers -------------------------------------------------

  const ENTROPY_BYTES := 10
  const SYMBOLS := 26
  const CROCKFORD: string := "0123456789ABCDEFGHJKMNPQRSTVWXYZ"

  function Pow(base: nat, n: nat): nat {
    if n == 0 then 1 else base * Pow(base, n - 1)
  }

  /** The number a byte sequence denotes, most significant byte first. */
  function BigEndian(s: seq<Byte>): nat {
    if s == [] then 0 else BigEndian(s[..|s| - 1]) * 256 + s[|s| - 1]
  }

  function BigEndianBytes(v: nat, n: nat): (s: seq<Byte>)
    ensures |s| == n
  {
    if n == 0 then [] else BigEndianBytes(v / 256, n - 1) + [v % 256]
  }

  lemma AtLeastOneMultiple(d: int, m: int)
    requires d >= 1 && m >= 0
    ensures d * m >= m
  {
  }

  lemma RemainderIs(v: int, m: int, q: int, r: int)
    requires v == q * m + r && 0 <= r < m
    ensures v % m == r
  {
    var d := v / m - q;
    assert d * m == (v / m) * m - q * m;
    if d >= 1 {
      AtLeastOneMultiple(d, m);
    } else if d <= -1 {
      AtLeastOneMultiple(-d, m);
    }
  }

  lemma SplitRemainder(v: nat, p: nat)
    requires p > 0
    ensures v / 256 % p * 256 + v % 256 == v % (256 * p)
  {
    var q, r := v / 256 / p, v / 256 % p;
    assert v / 256 == q * p + r;
    assert v == q * (256 * p) + (r * 256 + v % 256);
    RemainderIs(v, 256 * p, q, r * 256 + v % 256);
  }

  /** n bytes hold v modulo 256^n: the high bytes are simply not stored. */
  lemma {:induction false} BigEndianBytesValue(v: nat, n: nat)
    ensures Pow(256, n) > 0 && BigEndian(BigEndianBytes(v, n)) == v % Pow(256, n)
  {
    if n > 0 {
      BigEndianBytesValue(v / 256, n - 1);
      assert BigEndianBytes(v, n)[..n - 1] == BigEndianBytes(v / 256, n - 1);
      SplitRemainder(v, Pow(256, n - 1));
    }
  }

  lemma {:induction false} LowBytes(v: nat, n: nat, k: nat)
    requires k <= n
    ensures BigEndianBytes(v, n)[k..] == BigEndianBytes(v, n - k)
  {
    if k < n {
      LowBytes(v / 256, n - 1, k);
      assert BigEndianBytes(v, n)[k..] == BigEndianBytes(v / 256, n - 1)[k..] + [v % 256];
    }
  }

  lemma {:induction false} BigEndianBound(s: seq<Byte>)
    ensures BigEndian(s) < Pow(256, |s|)
  {
    if s != [] {
      BigEndianBound(s[..|s| - 1]);
      assert BigEndian(s[..|s| - 1]) * 256 + 255 < Pow(256, |s| - 1) * 256;
    }
  }

  lemma {:induction false} BigEndianInjective(s: seq<Byte>, t: seq<Byte>)
    requires |s| == |t| && BigEndian(s) == BigEndian(t)
    ensures s == t
  {
    if s != [] {
      var n := |s| - 1;
      BigEndianInjective(s[..n], t[..n]);
      assert s == s[..n] + [s[n]] && t == t[..n] + [t[n]];
    }
  }

  lemma AppendByte(a: nat, p: nat, x: nat, d: nat)
    ensures (a * p + x) * 256 + d == a * (256 * p) + (x * 256 + d)
  {
  }

  lemma {:induction false} BigEndianConcat(a: seq<Byte>, b: seq<Byte>)
    ensures BigEndian(a + b) == BigEndian(a) * Pow(256, |b|) + BigEndian(b)
  {
    if b == [] {
      assert a + b == a;
    } else {
      var n := |b| - 1;
      BigEndianConcat(a, b[..n]);
      assert (a + b)[..|a| + n] == a + b[..n];
      AppendByte(BigEndian(a), Pow(256, n), BigEndian(b[..n]), b[n]);
    }
  }

  lemma Powers()
    ensures Pow(256, 6) == 0x1_0000_0000_0000
    ensures Pow(256, ENTROPY_BYTES) == 0x1_0000_0000_0000_0000_0000
    ensures Pow(32, SYMBOLS) == 0x4_0000_0000_0000_0000_0000_0000_0000_0000
  {
    assert Pow(32, 4) == 0x10_0000 && Pow(32, 8) == 0x100_0000_0000 && Pow(32, 12) == 0x1000_0000_0000_0000;
    assert Pow(32, 16) == 0x1_0000_0000_0000_0000_0000 && Pow(32, 20) == 0x10_0000_0000_0000_0000_0000_0000;
    assert Pow(32, 24) == 0x100_0000_0000_0000_0000_0000_0000_0000;
  }

  // ---- Increment ---------------------------------------------------------

  /** Adding one with carry, byte by byte from the right. */
  function Carry(b: seq<Byte>): (r: seq<Byte>)
    ensures |r| == |b|
  {
    if b == [] then []
    else
      var n := |b| - 1;
      if b[n] != 255 then b[..n] + [b[n] + 1] else Carry(b[..n]) + [0]
  }

  /** Carry is +1 modulo the width: it wraps exactly when every byte is 0xFF. */
  lemma {:induction false} CarryAddsOne(b: seq<Byte>)
    ensures BigEndian(Carry(b)) ==
            if BigEndian(b) + 1 == Pow(256, |b|) then 0 else BigEndian(b) + 1
  {
    BigEndianBound(b);
    if b != [] {
      var n := |b| - 1;
      var r := Carry(b);
      CarryAddsOne(b[..n]);
      BigEndianBound(b[..n]);
      assert r[..n] == if b[n] != 255 then b[..n] else Carry(b[..n]);
    }
  }

  lemma {:induction false} CarryAt(b: seq<Byte>, i: nat)
    requires i < |b| && b[i] != 255
    requires forall k :: i < k < |b| ==> b[k] == 255
    ensures Carry(b) == b[..i] + [b[i] + 1] + seq(|b| - 1 - i, k => 0)
  {
    var n := |b| - 1;
    if i < n {
      CarryAt(b[..n], i);
      assert b[..n][..i] == b[..i];
      assert seq(n - 1 - i, k => 0 as Byte) + [0] == seq(n - i, k => 0 as Byte);
    }
  }

  lemma {:induction false} CarryAll(b: seq<Byte>)
    requires forall k :: 0 <= k < |b| ==> b[k] == 255
    ensures Carry(b) == seq(|b|, k => 0)
  {
    if b != [] {
      CarryAll(b[..|b| - 1]);
    }
  }

  method Increment(b: seq<Byte>) returns (r: seq<Byte>)
    requires |b| == ENTROPY_BYTES
    ensures r == Carry(b)
  {
    var a := new Byte[ENTROPY_BYTES](k requires 0 <= k < ENTROPY_BYTES => b[k]);
    var i := ENTROPY_BYTES - 1;
    while i >= 0
      invariant -1 <= i < ENTROPY_BYTES
      invariant forall k :: 0 <= k <= i ==> a[k] == b[k]
      invariant forall k :: i < k < ENTROPY_BYTES ==> a[k] == 0 && b[k] == 255
    {
      a[i] := if a[i] == 255 then 0 else a[i] + 1;
      if a[i] != 0 {
        CarryAt(b, i);
        break;
      }
      i := i - 1;
    }
    if i < 0 {
      CarryAll(b);
    }
    r := a[..];
  }

  // ---- Base 32 -----------------------------------------------------------

  predicate InAlphabet(c: char) {
    '0' <= c <= '9' || 'A' <= c <= 'H' || c == 'J' || c == 'K' || c == 'M' || c == 'N' || 'P' <= c <= 'T' || 'V' <= c <= 'Z'
  }

  /** The value of a Crockford symbol (the alphabet has no I, L, O, U). */
  function Digit(c: char): (d: nat)
    requires InAlphabet(c)
    ensures d < 32
  {
    if c <= '9' then (c as int) - ('0' as int)
    else if c <= 'H' then (c as int) - ('A' as int) + 10
    else if c <= 'K' then (c as int) - ('J' as int) + 18
    else if c <= 'N' then (c as int) - ('M' as int) + 20
    else if c <= 'T' then (c as int) - ('P' as int) + 22
    else (c as int) - ('V' as int) + 27
  }

  lemma AlphabetDigits(i: nat)
    requires i < 32
    ensures |CROCKFORD| == 32 && InAlphabet(CROCKFORD[i]) && Digit(CROCKFORD[i]) == i
  {
  }

  lemma DigitOrder(c: char, d: char)
    requires InAlphabet(c) && InAlphabet(d)
    ensures c < d <==> Digit(c) < Digit(d)
  {
  }

  ghost predicate IsBase32(s: string) {
    forall k :: 0 <= k < |s| ==> InAlphabet(s[k])
  }

  /** The number a base-32 string denotes, most significant symbol first. */
  function Base32Value(s: string): (v: nat)
    requires IsBase32(s)
  {
    if s == "" then 0 else Base32Value(s[..|s| - 1]) * 32 + Digit(s[|s| - 1])
  }

  /** The n base-32 symbols of v: the canonical rendering that ULIDs follow. */
  function Symbols(v: nat, n: nat): (s: string)
    ensures |s| == n && IsBase32(s)
  {
    AlphabetDigits(v % 32);
    if n == 0 then "" else Symbols(v / 32, n - 1) + [CROCKFORD[v % 32]]
  }

  lemma {:induction false} SymbolsValue(v: nat, n: nat)
    requires v < Pow(32, n)
    ensures Base32Value(Symbols(v, n)) == v
  {
    if n > 0 {
      SymbolsValue(v / 32, n - 1);
      AlphabetDigits(v % 32);
      assert Symbols(v, n)[..n - 1] == Symbols(v / 32, n - 1);
    }
  }

  /** Byte-wise string order, as Go and database indexes compare strings. */
  predicate LexLess(s: string, t: string) {
    t != "" && (s == "" || s[0] < t[0] || (s[0] == t[0] && LexLess(s[1..], t[1..])))
  }

  /** Appending a digit d to a number split at weight p. */
  lemma AppendDigit(whole: nat, before: nat, a: nat, p: nat, p': nat, x: nat, x': nat, d: nat)
    requires whole == before * 32 + d && before == a * p + x && p' == 32 * p && x' == x * 32 + d
    ensures whole == a * p' + x'
  {
    assert a * (32 * p) == a * p * 32;
  }

  lemma {:induction false} Base32Bound(s: string)
    requires IsBase32(s)
    ensures Base32Value(s) < Pow(32, |s|)
  {
    if s != "" {
      Base32Bound(s[..|s| - 1]);
      assert Base32Value(s[..|s| - 1]) * 32 + 31 < Pow(32, |s| - 1) * 32;
    }
  }

  lemma HeadDominates(a: nat, b: nat, p: nat, x: nat, y: nat)
    requires a < b && x < p
    ensures a * p + x < b * p + y
  {
    assert a * p + p == (a + 1) * p <= b * p;
  }

  lemma OneMore(s: string, k: nat)
    requires IsBase32(s) && k < |s|
    ensures Base32Value(s[..k + 1]) == Base32Value(s[..k]) * 32 + Digit(s[k])
  {
    assert s[..k + 1][..k] == s[..k];
  }

  /** The first symbol weighs as much as all that follow can reach. */
  lemma {:induction false} HeadAndTail(s: string)
    requires IsBase32(s) && s != ""
    ensures Base32Value(s) == Digit(s[0]) * Pow(32, |s| - 1) + Base32Value(s[1..])
    ensures Base32Value(s[1..]) < Pow(32, |s| - 1)
  {
    Base32Bound(s[1..]);
    var n := |s| - 1;
    var t, d := s[..n], Digit(s[n]);
    if n == 0 {
      assert t == "" && s[1..] == "";
    } else {
      HeadAndTail(t);
      var x := Base32Value(t[1..]);
      assert Base32Value(s[1..]) == x * 32 + d by {
        assert s[1..][..n - 1] == t[1..];
      }
      AppendDigit(Base32Value(s), Base32Value(t), Digit(s[0]), Pow(32, n - 1), Pow(32, n), x, Base32Value(s[1..]), d);
    }
  }

  /** On base-32 strings of one length, string order is numeric order. */
  lemma {:induction false} OrderPreserved(s: string, t: string)
    requires IsBase32(s) && IsBase32(t) && |s| == |t|
    ensures LexLess(s, t) <==> Base32Value(s) < Base32Value(t)
    ensures s == t <==> Base32Value(s) == Base32Value(t)
  {
    if s != "" {
      HeadAndTail(s);
      HeadAndTail(t);
      DigitOrder(s[0], t[0]);
      DigitOrder(t[0], s[0]);
      var p := Pow(32, |s| - 1);
      if s[0] < t[0] {
        HeadDominates(Digit(s[0]), Digit(t[0]), p, Base32Value(s[1..]), Base32Value(t[1..]));
      } else if t[0] < s[0] {
        HeadDominates(Digit(t[0]), Digit(s[0]), p, Base32Value(t[1..]), Base32Value(s[1..]));
      } else {
        OrderPreserved(s[1..], t[1..]);
        assert s == [s[0]] + s[1..] && t == [t[0]] + t[1..];
      }
    }
  }

  // ---- Bits --------------------------------------------------------------

  /** Quotient and remainder are determined by one sum. */
  lemma CutSum(b: int, n: int, q: int, r: int)
    requires b == q * n + r && 0 <= r < n
    requires n == 2 || n == 4 || n == 8 || n == 16 || n == 32 || n == 64 || n == 128
    ensures b / n == q && b % n == r
  {
  }

  // Where a byte is cut, its high and low bits are quotient and remainder.

  lemma Cut3(x: bv8)
    ensures ((x & 0xF8) >> 3) as int == x as int / 8 && (x & 0x07) as int == x as int % 8
  {
    assert x as int == ((x & 0xF8) >> 3) as int * 8 + (x & 0x07) as int;
    assert (x & 0x07) as int < 8;
    CutSum(x as int, 8, ((x & 0xF8) >> 3) as int, (x & 0x07) as int);
  }

  lemma Cut4(x: bv8)
    ensures ((x & 0xF0) >> 4) as int == x as int / 16 && (x & 0x0F) as int == x as int % 16
  {
    assert x as int == ((x & 0xF0) >> 4) as int * 16 + (x & 0x0F) as int;
    assert (x & 0x0F) as int < 16;
    CutSum(x as int, 16, ((x & 0xF0) >> 4) as int, (x & 0x0F) as int);
  }

  lemma Cut5(x: bv8)
    ensures ((x & 0xE0) >> 5) as int == x as int / 32 && (x & 0x1F) as int == x as int % 32
  {
    assert x as int == ((x & 0xE0) >> 5) as int * 32 + (x & 0x1F) as int;
    assert (x & 0x1F) as int < 32;
    CutSum(x as int, 32, ((x & 0xE0) >> 5) as int, (x & 0x1F) as int);
  }

  lemma Cut6(x: bv8)
    ensures ((x & 0xC0) >> 6) as int == x as int / 64
    ensures ((x & 0x3E) >> 1) as int == x as int % 64 / 2 && (x & 0x01) as int == x as int % 64 % 2
  {
    assert x as int == ((x & 0xC0) >> 6) as int * 64 + (x & 0x3F) as int;
    assert (x & 0x3F) as int == ((x & 0x3E) >> 1) as int * 2 + (x & 0x01) as int;
    assert (x & 0x3F) as int < 64 && (x & 0x01) as int < 2;
    CutSum(x as int, 64, ((x & 0xC0) >> 6) as int, (x & 0x3F) as int);
    CutSum((x & 0x3F) as int, 2, ((x & 0x3E) >> 1) as int, (x & 0x01) as int);
  }

  lemma Cut7(x: bv8)
    ensures ((x & 0x80) >> 7) as int == x as int / 128
    ensures ((x & 0x7C) >> 2) as int == x as int % 128 / 4 && (x & 0x03) as int == x as int % 128 % 4
  {
    assert x as int == ((x & 0x80) >> 7) as int * 128 + (x & 0x7F) as int;
    assert (x & 0x7F) as int == ((x & 0x7C) >> 2) as int * 4 + (x & 0x03) as int;
    assert (x & 0x7F) as int < 128 && (x & 0x03) as int < 4;
    CutSum(x as int, 128, ((x & 0x80) >> 7) as int, (x & 0x7F) as int);
    CutSum((x & 0x7F) as int, 4, ((x & 0x7C) >> 2) as int, (x & 0x03) as int);
  }

  /** Bits joined across two bytes do not overlap, so they add up. */
  lemma Join(x: bv8, y: bv8)
    ensures (((x & 0x07) << 2) | ((y & 0xC0) >> 6)) as int == (x & 0x07) as int * 4 + ((y & 0xC0) >> 6) as int
    ensures (((x & 0x01) << 4) | ((y & 0xF0) >> 4)) as int == (x & 0x01) as int * 16 + ((y & 0xF0) >> 4) as int
    ensures (((x & 0x0F) << 1) | ((y & 0x80) >> 7)) as int == (x & 0x0F) as int * 2 + ((y & 0x80) >> 7) as int
    ensures (((x & 0x03) << 3) | ((y & 0xE0) >> 5)) as int == (x & 0x03) as int * 8 + ((y & 0xE0) >> 5) as int
  {
  }

  lemma NextBits(r: bv8)
    requires r as int < 255
    ensures (r + 1) as int == r as int + 1
  {
  }

  /** The bits of a byte, counted up from zero. */
  function Bits(b: Byte): (r: bv8)
    ensures r as int == b
  {
    if b == 0 then 0 else
      var r := Bits(b - 1);
      NextBits(r);
      r + 1
  }

  ghost predicate Reads(c: char, digit: int) {
    InAlphabet(c) && Digit(c) == digit
  }

  // The nine bit expressions of the encoder, each proved to be the quotients and
  // remainders it stands for. First to Eighth are the symbols of a five-byte group.

  method Top3(a: Byte) returns (c: char)
    ensures Reads(c, a / 32)
  {
    var x := Bits(a);
    Cut5(x);
    AlphabetDigits(a / 32);
    c := CROCKFORD[((x & 0xE0) >> 5) as int];
  }

  method First(a: Byte) returns (c: char)
    ensures Reads(c, a / 8)
  {
    var x := Bits(a);
    Cut3(x);
    AlphabetDigits(a / 8);
    c := CROCKFORD[((x & 0xF8) >> 3) as int];
  }

  method Second(a: Byte, b: Byte) returns (c: char)
    ensures Reads(c, a % 8 * 4 + b / 64)
  {
    var x, y := Bits(a), Bits(b);
    Cut3(x);
    Cut6(y);
    Join(x, y);
    AlphabetDigits(a % 8 * 4 + b / 64);
    c := CROCKFORD[(((x & 0x07) << 2) | ((y & 0xC0) >> 6)) as int];
  }

  method Third(a: Byte) returns (c: char)
    ensures Reads(c, a % 64 / 2)
  {
    var x := Bits(a);
    Cut6(x);
    AlphabetDigits(a % 64 / 2);
    c := CROCKFORD[((x & 0x3E) >> 1) as int];
  }

  method Fourth(a: Byte, b: Byte) returns (c: char)
    ensures Reads(c, a % 64 % 2 * 16 + b / 16)
  {
    var x, y := Bits(a), Bits(b);
    Cut6(x);
    Cut4(y);
    Join(x, y);
    AlphabetDigits(a % 64 % 2 * 16 + b / 16);
    c := CROCKFORD[(((x & 0x01) << 4) | ((y & 0xF0) >> 4)) as int];
  }

  method Fifth(a: Byte, b: Byte) returns (c: char)
    ensures Reads(c, a % 16 * 2 + b / 128)
  {
    var x, y := Bits(a), Bits(b);
    Cut4(x);
    Cut7(y);
    Join(x, y);
    AlphabetDigits(a % 16 * 2 + b / 128);
    c := CROCKFORD[(((x & 0x0F) << 1) | ((y & 0x80) >> 7)) as int];
  }

  method Sixth(a: Byte) returns (c: char)
    ensures Reads(c, a % 128 / 4)
  {
    var x := Bits(a);
    Cut7(x);
    AlphabetDigits(a % 128 / 4);
    c := CROCKFORD[((x & 0x7C) >> 2) as int];
  }

  method Seventh(a: Byte, b: Byte) returns (c: char)
    ensures Reads(c, a % 128 % 4 * 8 + b / 32)
  {
    var x, y := Bits(a), Bits(b);
    Cut7(x);
    Cut5(y);
    Join(x, y);
    AlphabetDigits(a % 128 % 4 * 8 + b / 32);
    c := CROCKFORD[(((x & 0x03) << 3) | ((y & 0xE0) >> 5)) as int];
  }

  method Eighth(a: Byte) returns (c: char)
    ensures Reads(c, a % 32)
  {
    var x := Bits(a);
    Cut5(x);
    AlphabetDigits(a % 32);
    c := CROCKFORD[(x & 0x1F) as int];
  }

  function EightDigits(s: string): int
    requires |s| == 8 && IsBase32(s)
  {
    ((((((Digit(s[0]) * 32 + Digit(s[1])) * 32 + Digit(s[2])) * 32 + Digit(s[3])) * 32
     + Digit(s[4])) * 32 + Digit(s[5])) * 32 + Digit(s[6])) * 32 + Digit(s[7])
  }

  function FiveDigits(b: seq<Byte>): int
    requires |b| == 5
  {
    var v: int := b[0];
    (((v * 256 + b[1]) * 256 + b[2]) * 256 + b[3]) * 256 + b[4]
  }

  lemma Regroup(b0: Byte, b1: Byte, b2: Byte, b3: Byte, b4: Byte)
    ensures var d0: int, d1, d2, d3 := b0 / 8, b0 % 8 * 4 + b1 / 64, b1 % 64 / 2, b1 % 64 % 2 * 16 + b2 / 16;
            var d4, d5, d6, d7 := b2 % 16 * 2 + b3 / 128, b3 % 128 / 4, b3 % 128 % 4 * 8 + b4 / 32, b4 % 32;
            var v: int := b0;
            ((((((d0 * 32 + d1) * 32 + d2) * 32 + d3) * 32 + d4) * 32 + d5) * 32 + d6) * 32 + d7
            == (((v * 256 + b1) * 256 + b2) * 256 + b3) * 256 + b4
  {
  }

  /** s carries exactly the 40 bits of the five bytes b. */
  ghost predicate SameBits(s: string, b: seq<Byte>) {
    |s| == 8 && |b| == 5 && IsBase32(s) && EightDigits(s) == FiveDigits(b)
  }

  lemma GroupReadsBytes(s: string, b: seq<Byte>)
    requires |s| == 8 && |b| == 5
    requires Reads(s[0], b[0] / 8) && Reads(s[1], b[0] % 8 * 4 + b[1] / 64)
    requires Reads(s[2], b[1] % 64 / 2) && Reads(s[3], b[1] % 64 % 2 * 16 + b[2] / 16)
    requires Reads(s[4], b[2] % 16 * 2 + b[3] / 128) && Reads(s[5], b[3] % 128 / 4)
    requires Reads(s[6], b[3] % 128 % 4 * 8 + b[4] / 32) && Reads(s[7], b[4] % 32)
    ensures SameBits(s, b)
  {
    assert IsBase32(s);
    Regroup(b[0], b[1], b[2], b[3], b[4]);
  }

  method FirstByte(a: Byte) returns (s: string)
    ensures |s| == 2 && IsBase32(s) && Base32Value(s) == a
  {
    var c0 := Top3(a);
    var c1 := Eighth(a);
    s := [c0, c1];
    OneMore(s, 0);
    OneMore(s, 1);
    assert s[..2] == s;
  }

  method Group(b: seq<Byte>) returns (s: string)
    requires |b| == 5
    ensures SameBits(s, b)
  {
    var c0 := First(b[0]);
    var c1 := Second(b[0], b[1]);
    var c2 := Third(b[1]);
    var c3 := Fourth(b[1], b[2]);
    var c4 := Fifth(b[2], b[3]);
    var c5 := Sixth(b[3]);
    var c6 := Seventh(b[3], b[4]);
    var c7 := Eighth(b[4]);
    s := [c0, c1, c2, c3, c4, c5, c6, c7];
    GroupReadsBytes(s, b);
  }

  lemma EightMore(s: string, k: nat)
    requires IsBase32(s) && k + 8 <= |s|
    ensures Base32Value(s[..k + 8]) == Base32Value(s[..k]) * 0x100_0000_0000 + EightDigits(s[k..k + 8])
  {
    OneMore(s, k);
    OneMore(s, k + 1);
    OneMore(s, k + 2);
    OneMore(s, k + 3);
    OneMore(s, k + 4);
    OneMore(s, k + 5);
    OneMore(s, k + 6);
    OneMore(s, k + 7);
  }

  lemma OneByteMore(s: seq<Byte>, j: nat)
    requires j < |s|
    ensures BigEndian(s[..j + 1]) == BigEndian(s[..j]) * 256 + s[j]
  {
    assert s[..j + 1][..j] == s[..j];
  }

  lemma FiveMore(s: seq<Byte>, j: nat)
    requires j + 5 <= |s|
    ensures BigEndian(s[..j + 5]) == BigEndian(s[..j]) * 0x100_0000_0000 + FiveDigits(s[j..j + 5])
  {
    OneByteMore(s, j);
    OneByteMore(s, j + 1);
    OneByteMore(s, j + 2);
    OneByteMore(s, j + 3);
    OneByteMore(s, j + 4);
  }

  /** One five-byte group keeps the two readings of the prefix equal. */
  lemma GroupStep(s: string, k: nat, raw: seq<Byte>, j: nat)
    requires k + 8 <= |s| && j + 5 <= |raw| && IsBase32(s) && SameBits(s[k..k + 8], raw[j..j + 5])
    requires Base32Value(s[..k]) == BigEndian(raw[..j])
    ensures Base32Value(s[..k + 8]) == BigEndian(raw[..j + 5])
  {
    EightMore(s, k);
    FiveMore(raw, j);
  }

  // ---- Encode ------------------------------------------------------------

  /** The 128-bit number a ULID stands for: 48 bits of time over 80 of entropy. */
  function UlidNumber(ms: nat, entropy: seq<Byte>): nat {
    (ms % 0x1_0000_0000_0000) * 0x1_0000_0000_0000_0000_0000 + BigEndian(entropy)
  }

  function Canonical(ms: nat, entropy: seq<Byte>): (s: string)
    ensures |s| == SYMBOLS && IsBase32(s)
  {
    Symbols(UlidNumber(ms, entropy), SYMBOLS)
  }

  /** The 16 raw bytes read as one number are the ULID's number. */
  lemma RawBytes(ms: nat, entropy: seq<Byte>)
    requires |entropy| == ENTROPY_BYTES
    ensures BigEndian(BigEndianBytes(ms, 8)[2..8] + entropy) == UlidNumber(ms, entropy)
  {
    LowBytes(ms, 8, 2);
    BigEndianBytesValue(ms, 6);
    Powers();
    assert BigEndianBytes(ms, 8)[2..8] == BigEndianBytes(ms, 8)[2..];
    BigEndianConcat(BigEndianBytes(ms, 6), entropy);
  }

  lemma CanonicalValue(ms: nat, entropy: seq<Byte>)
    requires |entropy| == ENTROPY_BYTES
    ensures BigEndian(entropy) < 0x1_0000_0000_0000_0000_0000
    ensures Base32Value(Canonical(ms, entropy)) == UlidNumber(ms, entropy)
  {
    BigEndianBound(entropy);
    Powers();
    SymbolsValue(UlidNumber(ms, entropy), SYMBOLS);
  }

  lemma ThreeGroups(s: string, raw: seq<Byte>)
    requires |s| == SYMBOLS && |raw| == 16 && IsBase32(s) && Base32Value(s[..2]) == BigEndian(raw[..1])
    requires SameBits(s[2..10], raw[1..6]) && SameBits(s[10..18], raw[6..11]) && SameBits(s[18..26], raw[11..16])
    ensures Base32Value(s) == BigEndian(raw)
  {
    GroupStep(s, 2, raw, 1);
    GroupStep(s, 10, raw, 6);
    GroupStep(s, 18, raw, 11);
    assert s[..SYMBOLS] == s && raw[..16] == raw;
  }

  /** The 26 symbols of 16 bytes denote the same number as the bytes. */
  lemma GroupsReadBytes(head: string, time: string, high: string, low: string, raw: seq<Byte>)
    requires |raw| == 16 && |head| == 2 && IsBase32(head) && Base32Value(head) == raw[0]
    requires SameBits(time, raw[1..6]) && SameBits(high, raw[6..11]) && SameBits(low, raw[11..16])
    ensures var s := head + time + high + low;
            |s| == SYMBOLS && IsBase32(s) && Base32Value(s) == BigEndian(raw)
  {
    var s := head + time + high + low;
    assert s[..2] == head && s[2..10] == time && s[10..18] == high && s[18..26] == low;
    OneByteMore(raw, 0);
    ThreeGroups(s, raw);
  }

  lemma ReadsAreCanonical(s: string, raw: seq<Byte>, ms: nat, entropy: seq<Byte>)
    requires |entropy| == ENTROPY_BYTES && raw == BigEndianBytes(ms, 8)[2..8] + entropy
    requires |s| == SYMBOLS && IsBase32(s) && Base32Value(s) == BigEndian(raw)
    ensures s == Canonical(ms, entropy)
  {
    RawBytes(ms, entropy);
    CanonicalValue(ms, entropy);
    OrderPreserved(s, Canonical(ms, entropy));
  }

  method Encode(ms: nat, entropy: seq<Byte>) returns (s: string)
    requires ms < 0x1_0000_0000_0000_0000 && |entropy| == ENTROPY_BYTES
    ensures s == Canonical(ms, entropy)
  {
    var ts := BigEndianBytes(ms, 8);
    var raw := ts[2..8] + entropy;
    var head := FirstByte(raw[0]);
    var time := Group(raw[1..6]);
    var high := Group(raw[6..11]);
    var low := Group(raw[11..16]);
    s := head + time + high + low;
    GroupsReadBytes(head, time, high, low, raw);
    ReadsAreCanonical(s, raw, ms, entropy);
  }

  lemma Unpack(ms: nat, e: nat)
    requires ms < 0x1_0000_0000_0000 && e < 0x1_0000_0000_0000_0000_0000
    ensures var v := (ms % 0x1_0000_0000_0000) * 0x1_0000_0000_0000_0000_0000 + e;
            v / 0x1_0000_0000_0000_0000_0000 == ms && v % 0x1_0000_0000_0000_0000_0000 == e
  {
  }

  lemma BytesOfNumber(b: seq<Byte>)
    ensures BigEndianBytes(BigEndian(b), |b|) == b
  {
    BigEndianBound(b);
    BigEndianBytesValue(BigEndian(b), |b|);
    RemainderIs(BigEndian(b), Pow(256, |b|), 0, BigEndian(b));
    BigEndianInjective(BigEndianBytes(BigEndian(b), |b|), b);
  }

  /** A decoder recovers both parts of every ULID of a representable time. */
  lemma DecodeRecovers(ms: nat, entropy: seq<Byte>)
    requires ms < 0x1_0000_0000_0000 && |entropy| == ENTROPY_BYTES
    ensures var v := Base32Value(Canonical(ms, entropy));
            v / 0x1_0000_0000_0000_0000_0000 == ms
            && BigEndianBytes(v % 0x1_0000_0000_0000_0000_0000, ENTROPY_BYTES) == entropy
  {
    CanonicalValue(ms, entropy);
    Unpack(ms, BigEndian(entropy));
    BytesOfNumber(entropy);
  }

  // ---- The generator -----------------------------------------------------

  datatype State = State(lastMS: nat, lastRand: seq<Byte>)

  /** One lock section of New: the clock reading and the random bytes are inputs. */
  function Advance(st: State, ms: nat, random: seq<Byte>): State {
    if ms == st.lastMS then st.(lastRand := Carry(st.lastRand)) else State(ms, random)
  }

  lemma OneMoreModulo(x: nat, m: nat)
    requires m > 0
    ensures (x + 1) % m == if x % m + 1 == m then 0 else x % m + 1
  {
    if x % m + 1 == m {
      RemainderIs(x + 1, m, x / m + 1, 0);
    } else {
      RemainderIs(x + 1, m, x / m, x % m + 1);
    }
  }

  /** What the next id reads as: the time over the random bytes when the clock has moved, over
      one more than the last entropy when it has not. */
  lemma NextValue(st: State, ms: nat, random: seq<Byte>)
    requires |st.lastRand| == ENTROPY_BYTES && |random| == ENTROPY_BYTES && ms < 0x1_0000_0000_0000_0000
    ensures var next := Advance(st, ms, random);
            && next.lastMS == ms && |next.lastRand| == ENTROPY_BYTES
            && BigEndian(next.lastRand) == (if ms != st.lastMS then BigEndian(random)
                                            else (BigEndian(st.lastRand) + 1) % 0x1_0000_0000_0000_0000_0000)
            && Base32Value(Canonical(ms, next.lastRand))
                 == (ms % 0x1_0000_0000_0000) * 0x1_0000_0000_0000_0000_0000 + BigEndian(next.lastRand)
            && Base32Value(Canonical(ms, next.lastRand)) % 0x1_0000_0000_0000_0000_0000 == BigEndian(next.lastRand)
  {
    var next := Advance(st, ms, random);
    Powers();
    BigEndianBound(st.lastRand);
    BigEndianBound(next.lastRand);
    CarryAddsOne(st.lastRand);
    OneMoreModulo(BigEndian(st.lastRand), 0x1_0000_0000_0000_0000_0000);
    RemainderIs(BigEndian(st.lastRand), 0x1_0000_0000_0000_0000_0000, 0, BigEndian(st.lastRand));
    CanonicalValue(ms, next.lastRand);
    RemainderIs(Base32Value(Canonical(ms, next.lastRand)), 0x1_0000_0000_0000_0000_0000, ms % 0x1_0000_0000_0000,
                BigEndian(next.lastRand));
  }

  class Generator {
    var lastMS: nat
    var lastRand: seq<Byte>

    ghost function Value(): State
      reads this
    {
      State(lastMS, lastRand)
    }

    constructor ()
      ensures Value() == State(0, seq(ENTROPY_BYTES, i => 0))
    {
      lastMS := 0;
      lastRand := seq(ENTROPY_BYTES, i => 0);
    }

    method New(ms: nat, random: seq<Byte>) returns (id: string)
      requires |lastRand| == ENTROPY_BYTES && |random| == ENTROPY_BYTES && ms < 0x1_0000_0000_0000_0000
      modifies this
      ensures Value() == Advance(old(Value()), ms, random)
      ensures id == Canonical(lastMS, lastRand)
      ensures lastMS == ms && |lastRand| == ENTROPY_BYTES && Base32Value(id) % 0x1_0000_0000_0000_0000_0000 == BigEndian(lastRand)
      ensures ms != old(lastMS) ==>
                Base32Value(id) == (ms % 0x1_0000_0000_0000) * 0x1_0000_0000_0000_0000_0000 + BigEndian(random)
      ensures ms == old(lastMS) ==>
                Base32Value(id) == (ms % 0x1_0000_0000_0000) * 0x1_0000_0000_0000_0000_0000
                                   + (BigEndian(old(lastRand)) + 1) % 0x1_0000_0000_0000_0000_0000
    {
      NextValue(Value(), ms, random);
      var entropy;
      if ms == lastMS {
        lastRand := Increment(lastRand);
        entropy := lastRand;
      } else {
        lastMS := ms;
        entropy := random;
        lastRand := entropy;
      }
      id := Encode(ms, entropy);
    }
  }

  ghost predicate ValidState(st: State) {
    st.lastMS < 0x1_0000_0000_0000 && |st.lastRand| == ENTROPY_BYTES
  }

  /** A step that cannot break the order: a later clock, or a carry that does not wrap. */
  predicate InOrder(st: State, ms: nat) {
    ms > st.lastMS || (ms == st.lastMS && BigEndian(st.lastRand) + 1 < 0x1_0000_0000_0000_0000_0000)
  }

  lemma PackOrder(ms: nat, e: nat, ms': nat, e': nat)
    requires ms < 0x1_0000_0000_0000 && e < 0x1_0000_0000_0000_0000_0000
    requires ms' < 0x1_0000_0000_0000 && e' < 0x1_0000_0000_0000_0000_0000
    ensures var v := (ms % 0x1_0000_0000_0000) * 0x1_0000_0000_0000_0000_0000 + e;
            var v' := (ms' % 0x1_0000_0000_0000) * 0x1_0000_0000_0000_0000_0000 + e';
            v < v' <==> ms < ms' || (ms == ms' && e < e')
  {
  }

  /** A new id is above the previous one exactly when its step is in order. */
  lemma NextIsLargerIff(st: State, ms: nat, random: seq<Byte>)
    requires ValidState(st) && ms < 0x1_0000_0000_0000 && |random| == ENTROPY_BYTES
    ensures var next := Advance(st, ms, random);
            ValidState(next)
            && (LexLess(Canonical(st.lastMS, st.lastRand), Canonical(next.lastMS, next.lastRand)) <==> InOrder(st, ms))
  {
    var next := Advance(st, ms, random);
    CarryAddsOne(st.lastRand);
    Powers();
    CanonicalValue(st.lastMS, st.lastRand);
    CanonicalValue(next.lastMS, next.lastRand);
    PackOrder(st.lastMS, BigEndian(st.lastRand), next.lastMS, BigEndian(next.lastRand));
    OrderPreserved(Canonical(st.lastMS, st.lastRand), Canonical(next.lastMS, next.lastRand));
  }

  datatype Call = Call(ms: nat, random: seq<Byte>)

  ghost predicate ValidCalls(calls: seq<Call>) {
    forall k :: 0 <= k < |calls| ==> calls[k].ms < 0x1_0000_0000_0000 && |calls[k].random| == ENTROPY_BYTES
  }

  function After(st: State, calls: seq<Call>): State {
    if calls == [] then st
    else
      var last := calls[|calls| - 1];
      Advance(After(st, calls[..|calls| - 1]), last.ms, last.random)
  }

  /** The id the k-th call of a run returns. */
  function Id(st: State, calls: seq<Call>, k: nat): string
    requires k < |calls|
  {
    var s := After(st, calls[..k + 1]);
    Canonical(s.lastMS, s.lastRand)
  }

  ghost predicate RunInOrder(st: State, calls: seq<Call>) {
    forall k :: 0 < k < |calls| ==> InOrder(After(st, calls[..k]), calls[k].ms)
  }

  lemma {:induction false} RunStaysValid(st: State, calls: seq<Call>, k: nat)
    requires ValidState(st) && ValidCalls(calls) && k <= |calls|
    ensures ValidState(After(st, calls[..k]))
  {
    if k > 0 {
      assert calls[..k][..k - 1] == calls[..k - 1];
      RunStaysValid(st, calls, k - 1);
    }
  }

  lemma AdjacentIds(st: State, calls: seq<Call>, k: nat)
    requires ValidState(st) && ValidCalls(calls) && 0 < k < |calls|
    ensures LexLess(Id(st, calls, k - 1), Id(st, calls, k)) <==> InOrder(After(st, calls[..k]), calls[k].ms)
  {
    RunStaysValid(st, calls, k);
    assert calls[..k + 1][..k] == calls[..k] && calls[..k - 1 + 1] == calls[..k];
    NextIsLargerIff(After(st, calls[..k]), calls[k].ms, calls[k].random);
  }

  /** A generator that comes to a new millisecond makes these calls within it. */
  ghost predicate Burst(st: State, calls: seq<Call>, ms: nat) {
    && calls != [] && ms != st.lastMS && ms < 0x1_0000_0000_0000_0000 && |st.lastRand| == ENTROPY_BYTES
    && forall k :: 0 <= k < |calls| ==> calls[k].ms == ms && |calls[k].random| == ENTROPY_BYTES
  }

  lemma {:induction false} BurstState(st: State, calls: seq<Call>, ms: nat, k: nat)
    requires Burst(st, calls, ms) && k < |calls|
    ensures var s := After(st, calls[..k + 1]);
            && s.lastMS == ms && |s.lastRand| == ENTROPY_BYTES
            && BigEndian(s.lastRand) == (BigEndian(calls[0].random) + k) % 0x1_0000_0000_0000_0000_0000
  {
    assert calls[..k + 1][..k] == calls[..k];
    if k == 0 {
      NextValue(st, ms, calls[0].random);
      Powers();
      BigEndianBound(calls[0].random);
      RemainderIs(BigEndian(calls[0].random), 0x1_0000_0000_0000_0000_0000, 0, BigEndian(calls[0].random));
    } else {
      BurstState(st, calls, ms, k - 1);
      NextValue(After(st, calls[..k]), ms, calls[k].random);
      BurstWraps(BigEndian(calls[0].random) + k - 1, 0x1_0000_0000_0000_0000_0000);
    }
  }

  lemma BurstWraps(x: nat, m: nat)
    requires m > 0
    ensures (x % m + 1) % m == (x + 1) % m
  {
    OneMoreModulo(x, m);
    OneMoreModulo(x % m, m);
    RemainderIs(x % m, m, 0, x % m);
  }

  /** The k-th id after the first of a millisecond carries the first one's random bytes plus k. */
  lemma BurstValue(st: State, calls: seq<Call>, ms: nat, k: nat)
    requires Burst(st, calls, ms) && k < |calls|
    ensures Base32Value(Id(st, calls, k)) == (ms % 0x1_0000_0000_0000) * 0x1_0000_0000_0000_0000_0000
                                             + (BigEndian(calls[0].random) + k) % 0x1_0000_0000_0000_0000_0000
  {
    BurstState(st, calls, ms, k);
    CanonicalValue(ms, After(st, calls[..k + 1]).lastRand);
  }

  /** Two generators in one millisecond return the same id exactly where their random starts,
      as far as each has counted, meet; so their first ids differ if the random bytes do. */
  lemma SameIdIff(st: State, a: seq<Call>, k: nat, other: State, b: seq<Call>, l: nat, ms: nat)
    requires Burst(st, a, ms) && k < |a| && Burst(other, b, ms) && l < |b|
    ensures Id(st, a, k) == Id(other, b, l)
            <==> (BigEndian(a[0].random) + k) % 0x1_0000_0000_0000_0000_0000
                 == (BigEndian(b[0].random) + l) % 0x1_0000_0000_0000_0000_0000
    ensures Id(st, a, 0) == Id(other, b, 0) <==> a[0].random == b[0].random
  {
    BurstIds(st, a, k, other, b, l, ms);
    BurstIds(st, a, 0, other, b, 0, ms);
    FirstEntropies(a[0].random, b[0].random);
  }

  lemma FirstEntropies(x: seq<Byte>, y: seq<Byte>)
    requires |x| == |y| == ENTROPY_BYTES
    ensures BigEndian(x) % 0x1_0000_0000_0000_0000_0000 == BigEndian(y) % 0x1_0000_0000_0000_0000_0000 <==> x == y
  {
    Powers();
    BigEndianBound(x);
    BigEndianBound(y);
    RemainderIs(BigEndian(x), 0x1_0000_0000_0000_0000_0000, 0, BigEndian(x));
    RemainderIs(BigEndian(y), 0x1_0000_0000_0000_0000_0000, 0, BigEndian(y));
    if BigEndian(x) == BigEndian(y) {
      BigEndianInjective(x, y);
    }
  }

  lemma BurstIds(st: State, a: seq<Call>, k: nat, other: State, b: seq<Call>, l: nat, ms: nat)
    requires Burst(st, a, ms) && k < |a| && Burst(other, b, ms) && l < |b|
    ensures Id(st, a, k) == Id(other, b, l)
            <==> (BigEndian(a[0].random) + k) % 0x1_0000_0000_0000_0000_0000
                 == (BigEndian(b[0].random) + l) % 0x1_0000_0000_0000_0000_0000
  {
    var s, t := After(st, a[..k + 1]), After(other, b[..l + 1]);
    BurstState(st, a, ms, k);
    BurstState(other, b, ms, l);
    BurstValue(st, a, ms, k);
    BurstValue(other, b, ms, l);
    if BigEndian(s.lastRand) == BigEndian(t.lastRand) {
      BigEndianInjective(s.lastRand, t.lastRand);
    }
  }

  lemma {:induction false} LexTransitive(a: string, b: string, c: string)
    requires LexLess(a, b) && LexLess(b, c)
    ensures LexLess(a, c)
  {
    if a != "" && a[0] == b[0] == c[0] {
      LexTransitive(a[1..], b[1..], c[1..]);
    }
  }

  lemma {:induction false} LexIrreflexive(a: string)
    ensures !LexLess(a, a)
  {
    if a != "" {
      LexIrreflexive(a[1..]);
    }
  }

  function Ids(st: State, calls: seq<Call>): (ids: seq<string>)
    ensures |ids| == |calls|
  {
    seq(|calls|, k requires 0 <= k < |calls| => Id(st, calls, k))
  }

  lemma {:induction false} AdjacentOrderIsOrder(ids: seq<string>, i: nat, j: nat)
    requires forall k :: 0 < k < |ids| ==> LexLess(ids[k - 1], ids[k])
    requires i < j < |ids|
    ensures LexLess(ids[i], ids[j])
    decreases j
  {
    assert LexLess(ids[j - 1], ids[j]);
    if i < j - 1 {
      AdjacentOrderIsOrder(ids, i, j - 1);
      LexTransitive(ids[i], ids[j - 1], ids[j]);
    }
  }

  /** A whole run is strictly increasing, hence free of duplicates, exactly when every step is in order. */
  lemma RunIsMonotonicIff(st: State, calls: seq<Call>)
    requires ValidState(st) && ValidCalls(calls)
    ensures var ids := Ids(st, calls);
            && (RunInOrder(st, calls) <==> forall i, j :: 0 <= i < j < |ids| ==> LexLess(ids[i], ids[j]))
            && (RunInOrder(st, calls) ==> forall i, j :: 0 <= i < j < |ids| ==> ids[i] != ids[j])
  {
    var ids := Ids(st, calls);
    forall k | 0 < k < |ids|
      ensures LexLess(ids[k - 1], ids[k]) <==> InOrder(After(st, calls[..k]), calls[k].ms)
    {
      AdjacentIds(st, calls, k);
    }
    if RunInOrder(st, calls) {
      forall i, j | 0 <= i < j < |ids|
        ensures LexLess(ids[i], ids[j]) && ids[i] != ids[j]
      {
        AdjacentOrderIsOrder(ids, i, j);
        LexIrreflexive(ids[i]);
      }
    } else {
      var k :| 0 < k < |calls| && !InOrder(After(st, calls[..k]), calls[k].ms);
      assert !LexLess(ids[k - 1], ids[k]);
    }
  }
}
